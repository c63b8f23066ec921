/** A run that ends before persist_memory (src/wahabot/core/runs.py). */
module UnsavedRuns {
  // Its changes live in the context table only, so they are gone once its chat is evicted.

  import opened Chats
  import opened OrderedDict
  import opened Sequences
  import opened Optional
  import opened AsyncLock
  import opened Contexts
  import L = ChatLocks

  // ----- exactly when a chat's memory is lost -----

  /** A run enters the table with a file that says something else than the chat's newest context. */
  predicate Loses(w: World, step: Step, key: Chat, c: Config) {
    step.Enter? && step.task in w.locks.tasks && KeyOf(w, step.task) == key && Restored(w.store, key, c) != Known(w.live, key)
  }

  /** The step sets the chat's memory anew. */
  predicate Renews(w: World, step: Step, key: Chat) {
    (step.Write? || step.Forgetting?) && step.task in w.locks.tasks && KeyOf(w, step.task) == key
  }

  /** One step departs from the plain cell exactly when it loses the memory. */
  lemma StepIsPlainIff(w: World, step: Step, key: Chat, c: Config, cap: nat)
    requires Inv(w, c) && Enabled(w, step)
    ensures Known(Apply(w, step, c, cap).live, key) == Plain(w, step, key, Known(w.live, key)) <==> !Loses(w, step, key, c)
  {
    hide L.Inv, L.Apply, L.Enabled, Trimmed;
    if step.Enter? {
      assert RunInv(w, step.task, c);
    }
  }

  /** Whether the chat's newest context is still one that a losing step made: no step renewed it since. */
  ghost predicate Lost(w: World, steps: seq<Step>, key: Chat, c: Config, cap: nat, before: bool)
    requires Possible(w, steps, c, cap)
    decreases |steps|
  {
    if steps == [] then before
    else Lost(Apply(w, steps[0], c, cap), steps[1..], key, c, cap, !Renews(w, steps[0], key) && (before || Loses(w, steps[0], key, c)))
  }

  /** What is known of a chat beside its plain cell: the same memory, or, once it was lost, another one,
      and that one is in the file. */
  ghost predicate CellInv(w: World, key: Chat, memory: Option<Memory>, lost: bool, c: Config) {
    if lost then Known(w.live, key) != memory && Known(w.live, key) == Restored(w.store, key, c)
    else Known(w.live, key) == memory
  }

  lemma EnterKeepsCell(w: World, t: nat, key: Chat, memory: Option<Memory>, lost: bool, c: Config, cap: nat)
    requires Inv(w, c) && Enabled(w, Enter(t)) && CellInv(w, key, memory, lost, c)
    ensures CellInv(Apply(w, Enter(t), c, cap), key, memory, lost || Loses(w, Enter(t), key, c), c)
  {
    hide L.Inv, Trimmed;
    assert RunInv(w, t, c);
  }

  lemma CloseKeepsCell(w: World, t: nat, key: Chat, memory: Option<Memory>, lost: bool, c: Config, cap: nat)
    requires Inv(w, c) && Enabled(w, Close(t)) && CellInv(w, key, memory, lost, c)
    ensures CellInv(Apply(w, Close(t), c, cap), key, memory, lost, c)
  {
    hide L.Inv, Trimmed;
    assert RunInv(w, t, c);
  }

  lemma OtherKeepsCell(w: World, step: Step, key: Chat, memory: Option<Memory>, lost: bool, c: Config, cap: nat)
    requires Inv(w, c) && Enabled(w, step) && CellInv(w, key, memory, lost, c) && !step.Enter? && !step.Close?
    ensures CellInv(Apply(w, step, c, cap), key, Plain(w, step, key, memory), lost && !Renews(w, step, key), c)
  {
    hide L.Inv, L.Apply, L.Enabled, Trimmed;
  }

  lemma StepKeepsCell(w: World, step: Step, key: Chat, memory: Option<Memory>, lost: bool, c: Config, cap: nat)
    requires Inv(w, c) && Enabled(w, step) && CellInv(w, key, memory, lost, c)
    ensures CellInv(Apply(w, step, c, cap), key, Plain(w, step, key, memory),
                    !Renews(w, step, key) && (lost || Loses(w, step, key, c)), c)
  {
    hide Apply, Inv, CellInv, Enabled;
    if step.Enter? {
      EnterKeepsCell(w, step.task, key, memory, lost, c, cap);
    } else if step.Close? {
      CloseKeepsCell(w, step.task, key, memory, lost, c, cap);
    } else {
      OtherKeepsCell(w, step, key, memory, lost, c, cap);
    }
  }

  lemma {:induction false} RunKeepsCell(w: World, steps: seq<Step>, key: Chat, memory: Option<Memory>, lost: bool, c: Config, cap: nat)
    requires Inv(w, c) && Possible(w, steps, c, cap) && CellInv(w, key, memory, lost, c)
    ensures CellInv(After(w, steps, c, cap), key, PlainRun(w, steps, key, memory, c, cap), Lost(w, steps, key, c, cap, lost), c)
    decreases |steps|
  {
    hide Apply, Inv, CellInv, Enabled, Plain;
    if steps != [] {
      var n := Apply(w, steps[0], c, cap);
      StepKeepsInv(w, steps[0], c, cap);
      StepKeepsCell(w, steps[0], key, memory, lost, c, cap);
      RunKeepsCell(n, steps[1..], key, Plain(w, steps[0], key, memory), !Renews(w, steps[0], key) && (lost || Loses(w, steps[0], key, c)), c, cap);
    }
  }

  /** In every reachable state: a run that has its chat's context sees the last memory written since the
      last forget if and only if, since then, no run of the chat entered the table with a file that said
      something else than the newest context. */
  lemma ContextIsLatestIff(disk: map<Chat, Memory>, steps: seq<Step>, c: Config, cap: nat, t: nat)
    requires Possible(Initial(disk, c), steps, c, cap) && HasContext(After(Initial(disk, c), steps, c, cap), t)
    ensures var w0, w := Initial(disk, c), After(Initial(disk, c), steps, c, cap);
            var key := KeyOf(w, t);
            w.store.heap[w.runs[t].ctx].memory == PlainRun(w0, steps, key, Known(w0.live, key), c, cap)
            <==> !Lost(w0, steps, key, c, cap, false)
  {
    hide L.Inv, Apply, Enabled, PlainRun, Lost;
    var w0, w := Initial(disk, c), After(Initial(disk, c), steps, c, cap);
    var key := KeyOf(w, t);
    InitialInv(disk, c);
    RunKeepsInv(w0, steps, c, cap);
    assert RunInv(w, t, c);
    RunKeepsCell(w0, steps, key, Known(w0.live, key), false, c, cap);
  }

  // ----- such a run -----

  /** A run has read its chat's file and is about to start from it, though the chat's newest context
      held something else. */
  predicate LostChanges(w: World, t: nat) {
    Holds(w, t) && t in w.runs && w.runs[t].Loading? && w.runs[t].memory != Known(w.live, KeyOf(w, t))
  }

  const ADA := Chat("s", "ada")
  const BOB := Chat("s", "bob")

  /** One context is kept, every chat has a file. */
  function OneContext(): Config {
    Config(true, _ => true, 1)
  }

  function Dict1(k: Chat, v: nat): Dict<Chat, nat> {
    Dict([k], map[k := v])
  }

  /** Ada's run 0 has its context and Bob's run 1 has read its file. */
  function Started(): World {
    World(
      L.State(Dict([ADA, BOB], map[ADA := 0, BOB := 1]), map[ADA := 1, BOB := 1],
              map[0 := Lock(true, []), 1 := Lock(true, [])],
              map[0 := L.Acquisition(ADA, 0, true), 1 := L.Acquisition(BOB, 1, true)], 2),
      Store(Dict1(ADA, 0), map[0 := Context(ADA, None)], map[], 1),
      map[0 := Bound(0), 1 := Loading(None)],
      map[])
  }

  lemma OneStep(w: World, step: Step, n: World, c: Config, cap: nat)
    requires Enabled(w, step) && Apply(w, step, c, cap) == n
    ensures Possible(w, [step], c, cap) && After(w, [step], c, cap) == n
  {
    assert [step][1..] == [];
    assert Possible(n, [], c, cap) && After(n, [], c, cap) == n;
  }

  lemma {:induction false} RunThen(w: World, a: seq<Step>, b: seq<Step>, c: Config, cap: nat)
    requires Possible(w, a, c, cap) && Possible(After(w, a, c, cap), b, c, cap)
    ensures Possible(w, a + b, c, cap) && After(w, a + b, c, cap) == After(After(w, a, c, cap), b, c, cap)
    decreases |a|
  {
    hide Enabled, Apply;
    if a == [] {
      assert a + b == b;
    } else {
      assert (a + b)[1..] == a[1..] + b;
      RunThen(Apply(w, a[0], c, cap), a[1..], b, c, cap);
    }
  }

  lemma Then(w: World, a: seq<Step>, step: Step, n: World, c: Config, cap: nat)
    requires Possible(w, a, c, cap)
    requires Enabled(After(w, a, c, cap), step) && Apply(After(w, a, c, cap), step, c, cap) == n
    ensures Possible(w, a + [step], c, cap) && After(w, a + [step], c, cap) == n
  {
    hide Enabled, Apply;
    OneStep(After(w, a, c, cap), step, n, c, cap);
    RunThen(w, a, [step], c, cap);
  }

  // ----- the run, world by world -----

  function AdaEntered(): World {
    World(
      L.State(Dict1(ADA, 0), map[ADA := 1], map[0 := Lock(true, [])], map[0 := L.Acquisition(ADA, 0, true)], 1),
      Store(Empty(), map[], map[], 0), map[], map[])
  }

  function BothEntered(): World {
    AdaEntered().(locks := Started().locks)
  }

  function AdaLoading(): World {
    BothEntered().(runs := map[0 := Loading(None)])
  }

  function AdaBound(): World {
    Started().(runs := map[0 := Bound(0)])
  }

  function AdaWrote(m: Memory): World {
    Started().(store := Store(Dict1(ADA, 0), map[0 := Context(ADA, Some(m))], map[], 1), live := map[ADA := m])
  }

  function AdaGone(m: Memory): World {
    AdaWrote(m).(runs := map[1 := Loading(None)])
  }

  function BobBound(m: Memory): World {
    Started().(store := Store(Dict1(BOB, 1), map[0 := Context(ADA, Some(m)), 1 := Context(BOB, None)], map[], 2),
               runs := map[1 := Bound(1)], live := map[ADA := m])
  }

  function BobInside(): L.State {
    L.State(
      Dict([ADA, BOB], map[ADA := 0, BOB := 1]), map[BOB := 1],
      map[0 := Lock(false, []), 1 := Lock(true, [])], map[1 := L.Acquisition(BOB, 1, true)], 2)
  }

  function AdaLeft(m: Memory): World {
    BobBound(m).(locks := BobInside())
  }

  function BothInside(): L.State {
    L.State(
      Dict([BOB, ADA], map[ADA := 0, BOB := 1]), map[ADA := 1, BOB := 1],
      map[0 := Lock(true, []), 1 := Lock(true, [])],
      map[1 := L.Acquisition(BOB, 1, true), 2 := L.Acquisition(ADA, 0, true)], 3)
  }

  function AdaAgain(m: Memory): World {
    BobBound(m).(locks := BothInside())
  }

  function AdaReads(m: Memory): World {
    AdaAgain(m).(runs := map[1 := Bound(1), 2 := Loading(None)])
  }

  /** One step of the run from a world to a world. */
  ghost predicate Leads(w: World, step: Step, n: World) {
    Enabled(w, step) && Apply(w, step, OneContext(), 9) == n
  }

  lemma AdaEnters()
    ensures Leads(Initial(map[], OneContext()), Locking(L.Entering(ADA)), AdaEntered())
  {
  }

  /** Within the cap of the lock table nothing is evicted. */
  lemma NoEviction(s: L.State, key: Chat)
    requires s.table.Valid() && |s.table.keys| < 9
    ensures L.Enter(s, key, 9) == L.Entered(s, key)
  {
    hide Without, Distinct, L.Found, L.LocksWith, Acquire, Immediate;
  }

  lemma BobEnters()
    ensures Leads(AdaEntered(), Locking(L.Entering(BOB)), BothEntered())
  {
    hide Without, Distinct, L.Enter;
    var s := AdaEntered().locks;
    OneKey();
    NoEviction(s, BOB);
    var n := L.Entered(s, BOB);
    assert n.table == Started().locks.table;
    assert n.pending == map[ADA := 1, BOB := 1];
    assert n.locks == map[0 := Lock(true, []), 1 := Lock(true, [])];
    assert n.tasks == map[0 := L.Acquisition(ADA, 0, true), 1 := L.Acquisition(BOB, 1, true)];
  }

  lemma OneKey()
    ensures var table := Dict1(ADA, 0);
            table.Valid() && table.Remove(BOB).Put(BOB, 1) == Dict([ADA, BOB], map[ADA := 0, BOB := 1])
  {
    var table := Dict1(ADA, 0);
    assert Without([ADA], BOB) == [ADA] + Without([], BOB) by { assert [ADA][1..] == []; }
    assert table.Remove(BOB) == table;
    assert [ADA] + [BOB] == [ADA, BOB];
  }

  lemma AdaLooksUp()
    ensures Leads(BothEntered(), LookUp(0), AdaLoading())
  {
  }

  lemma AdaGetsContext()
    ensures Leads(AdaLoading(), Enter(0), AdaBound())
  {
    hide Without, Distinct, Trimmed;
    FirstKey();
    var n := Inserted(AdaLoading(), 0);
    assert n.store == AdaBound().store;
    assert n.runs == AdaBound().runs;
    assert n.live == map[];
  }

  lemma FirstKey()
    ensures Empty<Chat, nat>().Put(ADA, 0) == Dict1(ADA, 0)
    ensures Dict1(ADA, 0).Valid() && Trimmed(Dict1(ADA, 0), 1) == Dict1(ADA, 0)
  {
  }

  lemma BobLooksUp()
    ensures Leads(AdaBound(), LookUp(1), Started())
  {
  }

  lemma AdaWrites(m: Memory)
    ensures Leads(Started(), Write(0, m), AdaWrote(m))
  {
  }

  lemma AdaAbandons(m: Memory)
    ensures Leads(AdaWrote(m), Abandon(0), AdaGone(m))
  {
  }

  lemma Evicts()
    ensures Dict1(ADA, 0).Valid() && Dict1(ADA, 0).Put(BOB, 1) == Dict([ADA, BOB], map[ADA := 0, BOB := 1])
    ensures Trimmed(Dict1(ADA, 0).Put(BOB, 1), 1) == Dict1(BOB, 1)
  {
    var table := Dict1(ADA, 0).Put(BOB, 1);
    assert table.keys == [ADA, BOB] && table.keys[0] == ADA;
    assert Without([ADA, BOB], ADA) == [BOB];
    assert table.vals - {ADA} == map[BOB := 1];
    assert table.Remove(ADA) == Dict1(BOB, 1);
    assert Trimmed(table, 1) == Trimmed(table.Remove(ADA), 1);
  }

  lemma BobGetsContext(m: Memory)
    ensures Leads(AdaGone(m), Enter(1), BobBound(m))
  {
    hide Trimmed, Without, Distinct;
    Evicts();
    var n := Inserted(AdaGone(m), 1);
    assert n.store.table == Dict1(ADA, 0).Put(BOB, 1);
    assert n.live == map[ADA := m];
  }

  lemma AdaLeaves(m: Memory)
    ensures Leads(BobBound(m), Locking(L.Leaving(0)), AdaLeft(m))
  {
    var left := L.Leave(BobBound(m).locks, 0);
    assert left.tasks == map[1 := L.Acquisition(BOB, 1, true)];
    assert left.pending == map[BOB := 1];
    assert left.locks == map[0 := Lock(false, []), 1 := Lock(true, [])];
  }

  lemma AdaMovesToTheEnd()
    ensures var table := Dict([ADA, BOB], map[ADA := 0, BOB := 1]);
            table.Valid() && table.Remove(ADA).Put(ADA, 0) == Dict([BOB, ADA], map[ADA := 0, BOB := 1])
  {
    var table := Dict([ADA, BOB], map[ADA := 0, BOB := 1]);
    assert Without([ADA, BOB], ADA) == [BOB];
    assert table.Remove(ADA).keys == [BOB];
    assert [BOB] + [ADA] == [BOB, ADA];
    assert (table.vals - {ADA})[ADA := 0] == table.vals;
  }

  lemma AdaTakesHerLock()
    ensures BobInside().table.Valid() && L.Entered(BobInside(), ADA) == BothInside()
  {
    hide Without, Distinct, L.Entered;
    AdaMovesToTheEnd();
    var s := BobInside();
    FreeLockTaken(s, ADA, 0);
    assert s.pending[ADA := 1] == BothInside().pending;
    assert s.locks[0 := Lock(true, [])] == BothInside().locks;
    assert s.tasks[2 := L.Acquisition(ADA, 0, true)] == BothInside().tasks;
  }

  lemma FreeLockTaken(s: L.State, key: Chat, lock: nat)
    requires s.table.Valid() && key in s.table.vals && s.table.vals[key] == lock
    requires lock in s.locks && s.locks[lock] == Lock(false, []) && key !in s.pending
    ensures L.Entered(s, key) ==
            L.State(s.table.Remove(key).Put(key, lock), s.pending[key := 1], s.locks[lock := Lock(true, [])],
                    s.tasks[s.clock := L.Acquisition(key, lock, true)], s.clock + 1)
  {
    hide Without, Distinct;
  }

  lemma AdaEntersAgain(m: Memory)
    ensures Leads(AdaLeft(m), Locking(L.Entering(ADA)), AdaAgain(m))
  {
    hide Without, Distinct, L.Enter, L.Entered;
    AdaTakesHerLock();
    NoEviction(BobInside(), ADA);
  }

  lemma AdaReadsHerFile(m: Memory)
    ensures Leads(AdaAgain(m), LookUp(2), AdaReads(m))
  {
  }

  ghost predicate Reached(w: World) {
    exists steps :: Possible(Initial(map[], OneContext()), steps, OneContext(), 9) && After(Initial(map[], OneContext()), steps, OneContext(), 9) == w
  }

  lemma Onwards(w: World, step: Step, n: World)
    requires Reached(w) && Leads(w, step, n)
    ensures Reached(n)
  {
    hide Enabled, Apply;
    var w0, c := Initial(map[], OneContext()), OneContext();
    var steps :| Possible(w0, steps, c, 9) && After(w0, steps, c, 9) == w;
    Then(w0, steps, step, n, c, 9);
  }

  /** Whatever a run wrote: when it ends early, another chat takes its place in the table, and the chat
      is looked up again, the next run starts from the file, which knows nothing of it. */
  lemma UnsavedChangesAreLost(m: Memory)
    ensures Reached(AdaReads(m)) && LostChanges(AdaReads(m), 2) && Known(AdaReads(m).live, ADA) == Some(m)
  {
    hide Leads, Reached;
    StartIsReached();
    AdaEnters();
    BobEnters();
    AdaLooksUp();
    AdaGetsContext();
    BobLooksUp();
    AdaWrites(m);
    AdaAbandons(m);
    BobGetsContext(m);
    AdaLeaves(m);
    AdaEntersAgain(m);
    AdaReadsHerFile(m);
    Onwards(Initial(map[], OneContext()), Locking(L.Entering(ADA)), AdaEntered());
    Onwards(AdaEntered(), Locking(L.Entering(BOB)), BothEntered());
    Onwards(BothEntered(), LookUp(0), AdaLoading());
    Onwards(AdaLoading(), Enter(0), AdaBound());
    Onwards(AdaBound(), LookUp(1), Started());
    Onwards(Started(), Write(0, m), AdaWrote(m));
    Onwards(AdaWrote(m), Abandon(0), AdaGone(m));
    Onwards(AdaGone(m), Enter(1), BobBound(m));
    Onwards(BobBound(m), Locking(L.Leaving(0)), AdaLeft(m));
    Onwards(AdaLeft(m), Locking(L.Entering(ADA)), AdaAgain(m));
    Onwards(AdaAgain(m), LookUp(2), AdaReads(m));
  }

  lemma StartIsReached()
    ensures Reached(Initial(map[], OneContext()))
  {
    var w := Initial(map[], OneContext());
    assert Possible(w, [], OneContext(), 9) && After(w, [], OneContext(), 9) == w;
  }
}
