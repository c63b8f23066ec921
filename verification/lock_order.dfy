/** Which lock goes, who goes in at once, and what a cancelled acquisition does (src/wahabot/core/runs.py). */
module LockOrder {
  import opened Chats
  import opened OrderedDict
  import opened Sequences
  import opened AsyncLock
  import opened ChatLocks

  // ----- eviction, oldest first -----

  predicate Idle(table: Dict<Chat, nat>, key: Chat, locks: map<nat, Lock>, pending: map<Chat, nat>) {
    key in table.vals && !Busy(locks, pending, key, table.vals[key])
  }

  /** What eviction does to a table: nothing within the cap, and no more than the cap asks for; only idle
      entries of the list go, the oldest of them first. */
  ghost predicate OldestFirst(table: Dict<Chat, nat>, e: Dict<Chat, nat>, ks: seq<Chat>, i: nat, cap: nat, locks: map<nat, Lock>, pending: map<Chat, nat>)
    requires i <= |ks|
  {
    && (|table.keys| <= cap ==> e == table)
    && (|table.keys| > cap ==> |e.keys| >= cap)
    && (forall k | k in table.vals && k !in e.vals :: k in ks[i..] && Idle(table, k, locks, pending))
    && (forall m, n | i <= m < n < |ks| && ks[n] in table.vals && ks[n] !in e.vals && Idle(table, ks[m], locks, pending) :: ks[m] !in e.vals)
  }

  lemma OldestFirstNone(table: Dict<Chat, nat>, ks: seq<Chat>, i: nat, cap: nat, locks: map<nat, Lock>, pending: map<Chat, nat>)
    requires i <= |ks| && (|table.keys| <= cap || i == |ks|)
    ensures OldestFirst(table, table, ks, i, cap, locks, pending)
  {
    hide Busy;
  }

  lemma BusyPassed(table: Dict<Chat, nat>, e: Dict<Chat, nat>, ks: seq<Chat>, i: nat, cap: nat, locks: map<nat, Lock>, pending: map<Chat, nat>)
    requires i < |ks| && |table.keys| > cap && !Idle(table, ks[i], locks, pending)
    requires OldestFirst(table, e, ks, i + 1, cap, locks, pending)
    ensures OldestFirst(table, e, ks, i, cap, locks, pending)
  {
    hide Busy;
    assert forall k | k in ks[i + 1..] :: k in ks[i..];
  }

  /** What is idle in the smaller table is idle in the larger one, and the other way round for other keys. */
  lemma IdleWithout(table: Dict<Chat, nat>, rest: Dict<Chat, nat>, key: Chat, k: Chat, locks: map<nat, Lock>, pending: map<Chat, nat>)
    requires rest.vals == table.vals - {key} && k != key
    ensures (k in rest.vals <==> k in table.vals) && (Idle(rest, k, locks, pending) <==> Idle(table, k, locks, pending))
  {
  }

  lemma IdleDropped(table: Dict<Chat, nat>, rest: Dict<Chat, nat>, e: Dict<Chat, nat>, ks: seq<Chat>, i: nat, cap: nat,
                    locks: map<nat, Lock>, pending: map<Chat, nat>)
    requires i < |ks| && Distinct(ks) && |table.keys| > cap && Idle(table, ks[i], locks, pending)
    requires rest.vals == table.vals - {ks[i]} && |rest.keys| == |table.keys| - 1
    requires (forall k | k in e.vals :: k in rest.vals) && OldestFirst(rest, e, ks, i + 1, cap, locks, pending)
    ensures OldestFirst(table, e, ks, i, cap, locks, pending)
  {
    hide Idle, Distinct;
    var key := ks[i];
    assert ks[i] in ks[i..] && forall k | k in ks[i + 1..] :: k in ks[i..];
    assert key !in e.vals;
    forall k | k in table.vals && k !in e.vals
      ensures k in ks[i..] && Idle(table, k, locks, pending)
    {
      if k != key {
        IdleWithout(table, rest, key, k, locks, pending);
      }
    }
    forall m, n | i <= m < n < |ks| && ks[n] in table.vals && ks[n] !in e.vals && Idle(table, ks[m], locks, pending)
      ensures ks[m] !in e.vals
    {
      if m > i {
        OtherKey(ks, i, m);
        OtherKey(ks, i, n);
        IdleWithout(table, rest, key, ks[m], locks, pending);
        IdleWithout(table, rest, key, ks[n], locks, pending);
      }
    }
  }

  lemma OtherKey(ks: seq<Chat>, i: nat, m: nat)
    requires Distinct(ks) && i < m < |ks|
    ensures ks[i] != ks[m]
  {
  }

  lemma {:induction false} EvictsOldestFirst(table: Dict<Chat, nat>, ks: seq<Chat>, i: nat, cap: nat, locks: map<nat, Lock>, pending: map<Chat, nat>)
    requires Listed(table, ks, i)
    ensures OldestFirst(table, Evicted(table, ks, i, cap, locks, pending), ks, i, cap, locks, pending)
    decreases |ks| - i
  {
    hide Busy, Distinct, OldestFirst;
    if i == |ks| || |table.keys| <= cap {
      OldestFirstNone(table, ks, i, cap, locks, pending);
    } else if Busy(locks, pending, ks[i], table.vals[ks[i]]) {
      EvictsOldestFirst(table, ks, i + 1, cap, locks, pending);
      BusyPassed(table, Evicted(table, ks, i, cap, locks, pending), ks, i, cap, locks, pending);
    } else {
      ListedWithout(table, ks, i);
      var rest := table.Remove(ks[i]);
      EvictsOldestFirst(rest, ks, i + 1, cap, locks, pending);
      EvictedShrinks(rest, ks, i + 1, cap, locks, pending);
      IdleDropped(table, rest, Evicted(rest, ks, i + 1, cap, locks, pending), ks, i, cap, locks, pending);
    }
  }

  lemma {:induction false} WithoutIsPart<T(!new)>(s: seq<T>, x: T)
    ensures Subsequence(Without(s, x), s)
  {
    if s != [] {
      if s[0] == x {
        SuffixIsSubsequence(s, 1);
      } else {
        WithoutIsPart(s[1..], x);
        assert ([s[0]] + Without(s[1..], x))[1..] == Without(s[1..], x);
      }
    }
  }

  lemma {:induction false} EvictedInOrder(table: Dict<Chat, nat>, ks: seq<Chat>, i: nat, cap: nat, locks: map<nat, Lock>, pending: map<Chat, nat>)
    requires Listed(table, ks, i)
    ensures Subsequence(Evicted(table, ks, i, cap, locks, pending).keys, table.keys)
    decreases |ks| - i
  {
    hide Busy, Distinct, Subsequence, Without;
    if i == |ks| || |table.keys| <= cap {
      SubsequenceRefl(table.keys);
    } else if Busy(locks, pending, ks[i], table.vals[ks[i]]) {
      EvictedInOrder(table, ks, i + 1, cap, locks, pending);
    } else {
      ListedWithout(table, ks, i);
      var rest := table.Remove(ks[i]);
      EvictedInOrder(rest, ks, i + 1, cap, locks, pending);
      WithoutIsPart(table.keys, ks[i]);
      SubsequenceTrans(Evicted(rest, ks, i + 1, cap, locks, pending).keys, rest.keys, table.keys);
    }
  }

  /** The chat that enters moves behind all others and stays; of the others idle ones go, oldest first,
      until the table is back within its cap, and none when it already is. */
  lemma EntryOrder(s: State, key: Chat, cap: nat)
    requires Inv(s)
    ensures var n, before := Enter(s, key, cap), s.table.Remove(key).Put(key, LockFor(s, key));
            && before.keys == Without(s.table.keys, key) + [key]
            && key in n.table.vals
            && Subsequence(n.table.keys, before.keys)
            && OldestFirst(before, n.table, before.keys, 0, cap, LocksWith(s, key), n.pending)
  {
    hide Busy, Distinct, OldestFirst, Subsequence, Evicted, PartOf;
    var n := Entered(s, key);
    assert key !in s.table.Remove(key).vals;
    EvictsOldestFirst(n.table, n.table.keys, 0, cap, LocksWith(s, key), n.pending);
    EvictedInOrder(n.table, n.table.keys, 0, cap, LocksWith(s, key), n.pending);
    EntryEvicts(s, key, cap);
    EnteredVals(s, key);
    assert Count(n.pending, key) > 0;
  }

  // ----- who goes in at once -----

  /** The wait of a queued acquisition was cancelled before anybody woke it. */
  predicate GaveUp(s: State, t: nat) {
    Waiting(s, t) && s.locks[s.tasks[t].lock].waiters[Place(s, t)].future == Dropped
  }

  lemma SameChatSameLock(s: State, key: Chat, t: nat)
    requires Inv(s) && t in s.tasks && key in s.table.vals
    ensures s.tasks[t].key == key <==> s.tasks[t].lock == s.table.vals[key]
  {
    hide LockInv, PendingInv;
    assert TaskInv(s, t);
  }

  lemma QueueOf(s: State, key: Chat, i: nat)
    requires Inv(s) && key in s.table.vals && i < |s.locks[s.table.vals[key]].waiters|
    ensures var t := s.locks[s.table.vals[key]].waiters[i].task;
            t in s.tasks && s.tasks[t].key == key && !s.tasks[t].inside && Waiting(s, t) && Place(s, t) == i
  {
    var lock := s.table.vals[key];
    var l := s.locks[lock];
    assert LockInv(l, s.tasks, lock);
    var t := l.waiters[i].task;
    assert t in QueuedIn(l);
    assert t in WaitersOf(s.tasks, lock);
    PlaceOfQueued(l, t);
    SameChatSameLock(s, key, t);
  }

  lemma NewChatHasNoTask(s: State, key: Chat, t: nat)
    requires Inv(s) && key !in s.table.vals && t in s.tasks
    ensures s.tasks[t].key != key
  {
    hide LockInv, PendingInv;
    assert TaskInv(s, t);
  }

  lemma HeldMeansInside(s: State, key: Chat)
    requires Inv(s) && key in s.table.vals
    ensures s.locks[s.table.vals[key]].locked <==> exists t :: t in s.tasks && s.tasks[t].key == key && s.tasks[t].inside
  {
    var lock := s.table.vals[key];
    assert LockInv(s.locks[lock], s.tasks, lock);
    if s.locks[lock].locked {
      assert HoldersOf(s.tasks, lock) != {};
      var t :| t in HoldersOf(s.tasks, lock);
      SameChatSameLock(s, key, t);
    }
    if t :| t in s.tasks && s.tasks[t].key == key && s.tasks[t].inside {
      SameChatSameLock(s, key, t);
      assert t in HoldersOf(s.tasks, lock);
    }
  }

  /** Whoever asks for a chat's lock gets it at once exactly when nobody of the chat is inside and
      everybody waiting has given up. */
  lemma AtOnceIff(s: State, cap: nat, key: Chat)
    requires Reachable(s, cap)
    ensures s.table.Valid()
    ensures s.clock in Enter(s, key, cap).tasks
    ensures Enter(s, key, cap).tasks[s.clock].inside <==>
            forall t | t in s.tasks && s.tasks[t].key == key :: !s.tasks[t].inside && GaveUp(s, t)
  {
    hide Evicted, LockInv, PendingInv, TaskInv, Sound, Busy, Distinct;
    ReachableInv(s, cap);
    if key !in s.table.vals {
      forall t | t in s.tasks
        ensures s.tasks[t].key != key
      {
        NewChatHasNoTask(s, key, t);
      }
    } else {
      HeldMeansInside(s, key);
      var l := s.locks[s.table.vals[key]];
      forall i | 0 <= i < |l.waiters|
        ensures var t := l.waiters[i].task;
                t in s.tasks && s.tasks[t].key == key && !s.tasks[t].inside && (GaveUp(s, t) <==> l.waiters[i].future == Dropped)
      {
        QueueOf(s, key, i);
        SameChatSameLock(s, key, l.waiters[i].task);
      }
      if AllDropped(l.waiters) {
        forall t | t in s.tasks && s.tasks[t].key == key && !s.tasks[t].inside
          ensures GaveUp(s, t)
        {
          WaitingIsQueued(s, t);
          SameChatSameLock(s, key, t);
        }
      }
    }
  }

  // ----- cancellation -----

  /** A cancelled acquisition can run again at once, and then leaves: it never goes inside. */
  lemma CancelledLeaves(s: State, cap: nat, t: nat)
    requires Reachable(s, cap) && Waiting(s, t)
    ensures var n := RequestCancel(s, t);
            && CanResume(n, t) && Doomed(n, t)
            && t !in ResumeTask(n, t).tasks
            && (forall u | u != t :: u in ResumeTask(n, t).tasks <==> u in s.tasks)
            && Count(ResumeTask(n, t).pending, s.tasks[t].key) == Count(s.pending, s.tasks[t].key) - 1
  {
    ReachableInv(s, cap);
    assert TaskInv(s, t);
    var l, i := s.locks[s.tasks[t].lock], Place(s, t);
    assert LockInv(l, s.tasks, s.tasks[t].lock);
    CancelledPlace(l, t, i);
    assert t in TasksOf(s.tasks, s.tasks[t].key);
    assert Counted(s.pending, s.tasks, s.tasks[t].key);
  }

  lemma CancelledPlace(l: Lock, t: nat, i: nat)
    requires Sound(l) && i == PlaceIn(l.waiters, t) < |l.waiters|
    ensures PlaceIn(Cancel(l, i).waiters, t) == i && Cancel(l, i).waiters[i].doomed && Runnable(Cancel(l, i), i)
  {
    var n := Cancel(l, i);
    assert Sound(n) by { CancelSound(l, i); }
    PlaceOfQueued(n, t);
    assert n.waiters[i].task == t;
  }
}
