/** Forgetting a chat while its recap is being merged (src/wahabot/handlers/registration.py). */
module RecapForget {
  // The forget handler deletes the recap file. It neither takes the merge lock nor clears what is
  // still to be merged, so it depends on the merger's state whether the recap stays away.

  import opened Chats
  import opened AsyncLock
  import opened Text
  import opened RecapMerger
  import L = ChatLocks

  /** A job that was cancelled while it waited for its merge lock: it can only leave. */
  ghost predicate CancelledJob(s: State, job: nat)
    requires job in s.tasks
  {
    !s.tasks[job].inside && s.tasks[job].lock in s.locks && job in DoomedIn(s.locks[s.tasks[job].lock])
  }

  /** The merger holds nothing of the chat: no pending text, and no job but cancelled ones. */
  ghost predicate Quiet(s: State, key: Chat) {
    && key !in s.pending.vals
    && forall job | job in s.tasks && s.tasks[job].key == key :: CancelledJob(s, job)
  }

  /** Nothing new of the chat is scheduled. */
  ghost predicate Calm(steps: seq<Step>, key: Chat) {
    forall step | step in steps && step.Scheduling? && step.key == key :: Strip(step.dropped) == ""
  }

  /** Whatever happens, as long as nothing new is scheduled, the chat has no recap. */
  ghost predicate StaysForgotten(w: World, key: Chat, c: Config) {
    forall more | Possible(w, more, c) && Calm(more, key) :: key !in After(w, more, c).state.recaps
  }

  // ----- a quiet chat stays quiet -----

  lemma WakeKeepsDoomed(l: Lock)
    ensures DoomedIn(Release(l)) == DoomedIn(l)
  {
    var ws := Release(l).waiters;
    assert forall i | 0 <= i < |ws| :: ws[i].doomed == l.waiters[i].doomed && ws[i].task == l.waiters[i].task;
  }

  lemma JobOnLock(s: State, job: nat)
    requires LocksInv(s) && job in s.tasks
    ensures var lock := s.tasks[job].lock;
            && job < s.clock && lock in s.locks && L.LockInv(s.locks[lock], s.tasks, lock)
            && s.tasks[job].key in s.lockOf && s.lockOf[s.tasks[job].key] == lock
  {
    assert JobInv(s, job);
  }

  lemma TakeKeepsCancelled(s: State, c: Config, job: nat)
    requires LocksInv(s) && s.pending.Valid() && s.pending.keys != []
    requires job in s.tasks && CancelledJob(s, job)
    ensures job in Take(s, c).tasks && Take(s, c).tasks[job] == s.tasks[job] && CancelledJob(Take(s, c), job)
  {
    JobOnLock(s, job);
    DoomedStay(s.locks[s.tasks[job].lock], s.clock, 0, job);
  }

  lemma CancelKeepsCancelled(s: State, other: nat, job: nat)
    requires Waiting(s, other) && job in s.tasks && CancelledJob(s, job)
    ensures CancelledJob(CancelJob(s, other), job)
  {
    DoomedStay(s.locks[s.tasks[job].lock], 0, if s.tasks[job].lock == s.tasks[other].lock then Place(s, other) else 0, job);
  }

  lemma DoomedAtPlace(s: State, job: nat)
    requires LocksInv(s) && Waiting(s, job)
    ensures Doomed(s, job) <==> CancelledJob(s, job)
    ensures s.locks[s.tasks[job].lock].waiters[Place(s, job)].task == job
  {
    JobOnLock(s, job);
    var l := s.locks[s.tasks[job].lock];
    L.PlaceOfQueued(l, job);
    if CancelledJob(s, job) {
      var i :| 0 <= i < |l.waiters| && l.waiters[i].doomed && l.waiters[i].task == job;
      assert i == Place(s, job);
    }
    PlaceHolds(l.waiters, job);
  }

  lemma {:induction false} PlaceHolds(ws: seq<Waiter>, task: nat)
    ensures L.PlaceIn(ws, task) < |ws| ==> ws[L.PlaceIn(ws, task)].task == task
  {
    if ws != [] {
      PlaceHolds(ws[1..], task);
    }
  }

  lemma ResumeKeepsCancelled(s: State, other: nat, c: Config, job: nat)
    requires LocksInv(s) && CanResume(s, other) && job in s.tasks && CancelledJob(s, job)
    ensures var n := ResumeJob(s, other, c);
            job in n.tasks ==> n.tasks[job] == s.tasks[job] && CancelledJob(n, job)
  {
    hide LocksInv, Loaded;
    DoomedAtPlace(s, other);
    if other != job && s.tasks[other].lock == s.tasks[job].lock {
      DoomedStay(s.locks[s.tasks[job].lock], 0, Place(s, other), job);
    }
  }

  lemma FinishKeepsCancelled(s: State, done: nat, answer: Answer, c: Config, job: nat)
    requires Merging(s, done) && job in s.tasks && CancelledJob(s, job)
    ensures var n := Finish(s, done, answer, c);
            job in n.tasks && n.tasks[job] == s.tasks[job] && CancelledJob(n, job)
  {
    WakeKeepsDoomed(s.locks[s.tasks[done].lock]);
  }

  lemma StepKeepsCancelled(w: World, step: Step, c: Config, job: nat)
    requires Enabled(w, step) && LocksInv(w.state) && job in w.state.tasks && CancelledJob(w.state, job)
    ensures var n := Apply(w, step, c).state;
            job in n.tasks ==> n.tasks[job] == w.state.tasks[job] && CancelledJob(n, job)
  {
    hide LocksInv, CancelledJob, Apply;
    var s := w.state;
    StateAfter(w, step, c);
    match step
    case Taking => TakeKeepsCancelled(s, c, job);
    case Cancelling(other) => CancelKeepsCancelled(s, other, job); SameTasks(s, other);
    case Resuming(other) => ResumeKeepsCancelled(s, other, c, job);
    case Finishing(done, answer) => FinishKeepsCancelled(s, done, answer, c, job);
    case Scheduling(key, dropped) => SameLocksCancelled(s, Apply(w, step, c).state, job);
    case Forgetting(key) => SameLocksCancelled(s, Apply(w, step, c).state, job);
  }

  lemma StateAfter(w: World, step: Step, c: Config)
    requires Enabled(w, step)
    ensures var s, n := w.state, Apply(w, step, c).state;
            match step
            case Taking => n == Take(s, c)
            case Cancelling(other) => n == CancelJob(s, other)
            case Resuming(other) => n == ResumeJob(s, other, c)
            case Finishing(done, answer) => n == Finish(s, done, answer, c)
            case Scheduling(key, dropped) => n.tasks == s.tasks && n.locks == s.locks
            case Forgetting(key) => n.tasks == s.tasks && n.locks == s.locks
  {
    hide Take, CancelJob, ResumeJob, Finish, Batched, CanResume, Strip;
  }

  lemma SameTasks(s: State, other: nat)
    requires Waiting(s, other)
    ensures CancelJob(s, other).tasks == s.tasks
  {
  }

  lemma SameLocksCancelled(s: State, n: State, job: nat)
    requires n.tasks == s.tasks && n.locks == s.locks && job in s.tasks && CancelledJob(s, job)
    ensures CancelledJob(n, job)
  {
  }

  /** A step starts no job but the one that takes the last chat's batch. */
  lemma NewJobs(w: World, step: Step, c: Config, job: nat)
    requires Enabled(w, step) && job in Apply(w, step, c).state.tasks && job !in w.state.tasks
    ensures step == Taking && Apply(w, step, c).state.tasks[job].key == NextChat(w.state)
  {
    hide Batched, Found, Acquire, Loaded;
  }

  lemma PendingFrame(w: World, step: Step, c: Config, key: Chat)
    requires Enabled(w, step) && w.state.pending.Valid() && key !in w.state.pending.vals
    requires step.Scheduling? && step.key == key ==> Strip(step.dropped) == ""
    ensures key !in Apply(w, step, c).state.pending.vals
    ensures step == Taking ==> NextChat(w.state) != key
  {
    hide Batched, Found, Acquire, Loaded, Strip;
  }

  /** Only a merge of the chat writes its recap. */
  lemma RecapFrame(w: World, step: Step, c: Config, key: Chat)
    requires Enabled(w, step) && key !in w.state.recaps
    requires !c.durable(key) || !step.Finishing? || w.state.tasks[step.job].key != key
    ensures key !in Apply(w, step, c).state.recaps
  {
    hide Batched, Found, Acquire, Loaded, Strip;
  }

  ghost predicate Gone(w: World, key: Chat, c: Config) {
    key !in w.state.recaps && (!c.durable(key) || Quiet(w.state, key))
  }

  lemma StepKeepsGone(w: World, step: Step, c: Config, key: Chat)
    requires Inv(w, c) && Enabled(w, step) && Gone(w, key, c)
    requires step.Scheduling? && step.key == key ==> Strip(step.dropped) == ""
    ensures Gone(Apply(w, step, c), key, c)
  {
    hide LocksInv, OrderInv, ChatInv, BatchInv, ReadInv, Apply, CancelledJob;
    var n := Apply(w, step, c);
    if c.durable(key) {
      assert step.Finishing? && w.state.tasks[step.job].key == key ==> CancelledJob(w.state, step.job);
      MergingIsNotCancelled(w.state, step, key);
      PendingFrame(w, step, c, key);
      forall job | job in n.state.tasks && n.state.tasks[job].key == key
        ensures CancelledJob(n.state, job)
      {
        if job in w.state.tasks {
          SameKey(w, step, c, job);
          StepKeepsCancelled(w, step, c, job);
        } else {
          NewJobs(w, step, c, job);
        }
      }
    }
    RecapFrame(w, step, c, key);
  }

  lemma SameKey(w: World, step: Step, c: Config, job: nat)
    requires LocksInv(w.state) && Enabled(w, step) && job in w.state.tasks && job in Apply(w, step, c).state.tasks
    ensures Apply(w, step, c).state.tasks[job].key == w.state.tasks[job].key
  {
    JobOnLock(w.state, job);
    JobFrame(w, step, c, job);
  }

  lemma MergingIsNotCancelled(s: State, step: Step, key: Chat)
    requires step.Finishing? && Merging(s, step.job)  && s.tasks[step.job].key == key ==> CancelledJob(s, step.job)
    ensures step.Finishing? && Merging(s, step.job) ==> s.tasks[step.job].key != key
  {
  }

  lemma {:induction false} RunKeepsGone(w: World, steps: seq<Step>, c: Config, key: Chat)
    requires Inv(w, c) && Possible(w, steps, c) && Calm(steps, key) && Gone(w, key, c)
    ensures key !in After(w, steps, c).state.recaps
    decreases |steps|
  {
    hide Inv, Quiet, Apply, Enabled;
    if steps != [] {
      assert steps[0] in steps;
      StepKeepsInv(w, steps[0], c);
      StepKeepsGone(w, steps[0], c, key);
      RunKeepsGone(Apply(w, steps[0], c), steps[1..], c, key);
    }
  }

  // ----- a chat that is not quiet can get its recap back -----

  /** A run that ends with a recap of the chat, without anything new scheduled for it. */
  ghost predicate Returns(w: World, steps: seq<Step>, c: Config, key: Chat) {
    Possible(w, steps, c) && Calm(steps, key) && key in After(w, steps, c).state.recaps
  }

  lemma OneMoreStep(w: World, step: Step, rest: seq<Step>, c: Config, key: Chat)
    requires Enabled(w, step) && !step.Scheduling? && Returns(Apply(w, step, c), rest, c, key)
    ensures Returns(w, [step] + rest, c, key)
  {
    hide Apply, Enabled;
    assert ([step] + rest)[1..] == rest;
  }

  lemma MergeNow(w: World, c: Config, key: Chat, job: nat)
    requires Merging(w.state, job) && w.state.tasks[job].key == key && c.durable(key)
    ensures Returns(w, [Finishing(job, Answered("x"))], c, key)
  {
    var steps := [Finishing(job, Answered("x"))];
    var n := Apply(w, steps[0], c);
    assert Strip("x") == "x";
    assert key in n.state.recaps;
    assert steps[1..] == [];
    assert Possible(n, [], c) && After(n, [], c) == n;
  }

  /** The first waiter of a lock that nobody holds can run, and then one waiter less is queued. */
  lemma FirstWaiterRuns(w: World, c: Config, job: nat) returns (first: nat)
    requires Inv(w, c) && job in w.state.tasks
    requires L.HoldersOf(w.state.tasks, w.state.tasks[job].lock) == {}
    ensures !w.state.tasks[job].inside
    ensures CanResume(w.state, first) && w.state.tasks[first].lock == w.state.tasks[job].lock && Place(w.state, first) == 0
  {
    hide OrderInv, ChatInv, BatchInv, ReadInv;
    var s := w.state;
    var lock := s.tasks[job].lock;
    JobOnLock(s, job);
    var l := s.locks[lock];
    assert !l.locked;
    assert s.tasks[job].inside ==> job in L.HoldersOf(s.tasks, lock);
    assert job in L.WaitersOf(s.tasks, lock);
    assert L.WaitersOf(s.tasks, lock) == L.QueuedIn(l);
    assert l.waiters != [];
    first := l.waiters[0].task;
    assert first in L.QueuedIn(l);
    L.PlaceOfQueued(l, first);
  }

  lemma SameChat(s: State, i: nat, j: nat)
    requires LocksInv(s) && i in s.tasks && j in s.tasks && s.tasks[i].lock == s.tasks[j].lock
    ensures s.tasks[i].key == s.tasks[j].key
  {
    assert JobInv(s, i) && JobInv(s, j);
  }

  lemma NotDoomedLater(l: Lock, i: nat, t: nat)
    requires i < |l.waiters| && t !in DoomedIn(l)
    ensures t !in DoomedIn(Resume(l, i))
  {
    var m := Resume(l, i);
    forall k | 0 <= k < |m.waiters| && m.waiters[k].doomed
      ensures m.waiters[k].task != t
    {
      var before := l.waiters[if k < i then k else k + 1];
      assert AsyncLock.RemovedAt(l.waiters, i)[k] == before;
      assert before.task in DoomedIn(l);
    }
  }

  lemma AfterFirst(s: State, c: Config, job: nat, first: nat)
    requires LocksInv(s) && job in s.tasks && !s.tasks[job].inside && !CancelledJob(s, job)
    requires CanResume(s, first) && s.tasks[first].lock == s.tasks[job].lock && Place(s, first) == 0
    ensures var n := ResumeJob(s, first, c);
            var next := if Doomed(s, first) then job else first;
            && next in n.tasks && n.tasks[next].key == s.tasks[job].key && !CancelledJob(n, next)
            && n.tasks[next].lock == s.tasks[job].lock
            && |n.locks[s.tasks[job].lock].waiters| < |s.locks[s.tasks[job].lock].waiters|
  {
    hide LocksInv, Loaded;
    DoomedAtPlace(s, first);
    JobOnLock(s, job);
    SameChat(s, first, job);
    if Doomed(s, first) {
      NotDoomedLater(s.locks[s.tasks[job].lock], 0, job);
    }
  }

  /** From a live job of the chat: let the queue in front of it run, and let one merge answer. */
  lemma {:induction false} ComesBackFromJob(w: World, c: Config, key: Chat, job: nat) returns (steps: seq<Step>)
    requires Inv(w, c) && c.durable(key)
    requires job in w.state.tasks && w.state.tasks[job].key == key && !CancelledJob(w.state, job)
    ensures Returns(w, steps, c, key)
    decreases var l := w.state.tasks[job].lock; if l in w.state.locks then |w.state.locks[l].waiters| else 0
  {
    hide OrderInv, ChatInv, BatchInv, ReadInv, CancelledJob, Returns, LocksInv;
    var s := w.state;
    var lock := s.tasks[job].lock;
    JobOnLock(s, job);
    if holder :| holder in L.HoldersOf(s.tasks, lock) {
      SameChat(s, holder, job);
      MergeNow(w, c, key, holder);
      steps := [Finishing(holder, Answered("x"))];
    } else {
      var first := FirstWaiterRuns(w, c, job);
      AfterFirst(s, c, job, first);
      StepKeepsInv(w, Resuming(first), c);
      var rest := ComesBackFromJob(Apply(w, Resuming(first), c), c, key, if Doomed(s, first) then job else first);
      OneMoreStep(w, Resuming(first), rest, c, key);
      steps := [Resuming(first)] + rest;
    }
  }

  lemma TakenIsLive(s: State, c: Config)
    requires LocksInv(s) && s.pending.Valid() && s.pending.keys != []
    ensures var n := Take(s, c);
            s.clock in n.tasks && n.tasks[s.clock].key == NextChat(s) && !CancelledJob(n, s.clock)
  {
    var key := NextChat(s);
    var l, job := Found(s, key), s.clock;
    FoundLock(s, key);
    var waiters := Acquire(l, job).waiters;
    forall i | 0 <= i < |waiters| && waiters[i].doomed
      ensures waiters[i].task != job
    {
      assert waiters[i] == l.waiters[i];
      assert waiters[i].task in L.QueuedIn(l);
      assert waiters[i].task in L.WaitersOf(s.tasks, LockFor(s, key));
    }
  }

  lemma TakeShortens(s: State, c: Config, key: Chat)
    requires s.pending.Valid() && key in s.pending.vals
    ensures s.pending.keys != [] && |Take(s, c).pending.keys| < |s.pending.keys|
    ensures NextChat(s) != key ==> key in Take(s, c).pending.vals
  {
    hide Found, Acquire, Loaded;
    assert key in s.pending.keys;
    assert NextChat(s) in s.pending.keys;
  }

  /** From pending text: take batches until it is the chat's turn. */
  lemma {:induction false} ComesBackFromPending(w: World, c: Config, key: Chat) returns (steps: seq<Step>)
    requires Inv(w, c) && c.durable(key) && key in w.state.pending.vals
    ensures Returns(w, steps, c, key)
    decreases |w.state.pending.keys|
  {
    hide OrderInv, ChatInv, BatchInv, ReadInv, CancelledJob, Returns, LocksInv, Take;
    var s := w.state;
    TakeShortens(s, c, key);
    TakenIsLive(s, c);
    StepKeepsInv(w, Taking, c);
    var n := Apply(w, Taking, c);
    var rest: seq<Step>;
    if NextChat(s) == key {
      rest := ComesBackFromJob(n, c, key, s.clock);
    } else {
      rest := ComesBackFromPending(n, c, key);
    }
    OneMoreStep(w, Taking, rest, c, key);
    steps := [Taking] + rest;
  }

  /** In every reachable state: after a forget the chat's recap stays away for good, as long as nothing
      new of it is scheduled, if and only if the merger held no pending text and no live job of the
      chat, or never writes for it. */
  lemma ForgetIsFinalIff(recaps: map<Chat, string>, steps: seq<Step>, c: Config, key: Chat)
    requires Possible(Start(recaps), steps, c)
    ensures var w := After(Start(recaps), steps, c);
            StaysForgotten(Apply(w, Forgetting(key), c), key, c) <==> !c.durable(key) || Quiet(w.state, key)
  {
    hide Inv, Returns, CancelledJob;
    ReachedInv(recaps, steps, c);
    var w := After(Start(recaps), steps, c);
    var wiped := Apply(w, Forgetting(key), c);
    StepKeepsInv(w, Forgetting(key), c);
    QuietAfterForget(w, c, key);
    if !c.durable(key) || Quiet(w.state, key) {
      forall more | Possible(wiped, more, c) && Calm(more, key)
        ensures key !in After(wiped, more, c).state.recaps
      {
        RunKeepsGone(wiped, more, c, key);
      }
    } else {
      CanComeBack(wiped, c, key);
    }
  }

  lemma QuietAfterForget(w: World, c: Config, key: Chat)
    ensures var wiped := Apply(w, Forgetting(key), c);
            key !in wiped.state.recaps && (Quiet(wiped.state, key) <==> Quiet(w.state, key))
  {
    var n := Apply(w, Forgetting(key), c).state;
    assert n.tasks == w.state.tasks && n.locks == w.state.locks;
    assert forall job | job in n.tasks :: CancelledJob(n, job) <==> CancelledJob(w.state, job);
  }

  lemma CanComeBack(w: World, c: Config, key: Chat)
    requires Inv(w, c) && c.durable(key) && !Quiet(w.state, key)
    ensures !StaysForgotten(w, key, c)
  {
    hide Inv, CancelledJob, Possible, After, Calm;
    var steps: seq<Step>;
    if key in w.state.pending.vals {
      steps := ComesBackFromPending(w, c, key);
    } else {
      var job :| job in w.state.tasks && w.state.tasks[job].key == key && !CancelledJob(w.state, job);
      steps := ComesBackFromJob(w, c, key, job);
    }
    assert key in After(w, steps, c).state.recaps;
  }
}
