/** The shared context table over the memory files (src/wahabot/core/runs.py, context_for). */
module Contexts {
  // context_for, persist_memory and the forget handler (src/wahabot/handlers/registration.py), driven by
  // runs that hold their chat's lock. A run looks its context up once; on a miss it may be suspended
  // between reading the file and entering the table, while runs of other chats fill and evict.

  import opened Chats
  import opened OrderedDict
  import opened Messages
  import opened Optional
  import L = ChatLocks

  type Memory = seq<Message>

  /** Where a run is: it has read the file and not yet entered the table, or it has its context. */
  datatype Run = Loading(memory: Option<Memory>) | Bound(ctx: nat)

  /** Persistence switched on or off, the chat ids a file may be written for, and the table's cap. */
  datatype Config = Config(persist: bool, durable: Chat -> bool, cap: nat)

  /** A context object, with the chat it was made for; nothing reads that tag. */
  datatype Context = Context(chat: Chat, memory: Option<Memory>)

  /** `heap` holds every context object, by number; a run keeps its object even when the table drops it. */
  datatype Store = Store(table: Dict<Chat, nat>, heap: map<nat, Context>, disk: map<Chat, Memory>, clock: nat)

  function Restored(s: Store, key: Chat, c: Config): Option<Memory> {
    if c.persist && c.durable(key) && key in s.disk then Some(s.disk[key]) else None
  }

  // ----- the operations on the store -----

  /** The chat's entry moves to the end. */
  function Renewed(s: Store, key: Chat): Store
    requires s.table.Valid() && key in s.table.vals
  {
    s.(table := s.table.Remove(key).Put(key, s.table.vals[key]))
  }

  function Added(s: Store, key: Chat, memory: Option<Memory>): Store
    requires s.table.Valid()
  {
    Store(s.table.Put(key, s.clock), s.heap[s.clock := Context(key, memory)], s.disk, s.clock + 1)
  }

  function Changed(s: Store, ctx: nat, memory: Memory): Store
    requires ctx in s.heap
  {
    s.(heap := s.heap[ctx := s.heap[ctx].(memory := Some(memory))])
  }

  /** persist_memory: nothing when switched off, for a chat without a file, or when there is no memory. */
  function Persisted(s: Store, key: Chat, ctx: nat, c: Config): Store
    requires ctx in s.heap
  {
    var memory := s.heap[ctx].memory;
    if c.persist && c.durable(key) && memory.Some? then s.(disk := s.disk[key := memory.value]) else s
  }

  function Wiped(s: Store, key: Chat): Store
    requires s.table.Valid()
  {
    s.(table := s.table.Remove(key), disk := s.disk - {key})
  }

  // ----- runs of all chats, interleaved -----

  /** `live` is what each chat's newest context holds: the plain picture of a chat's memory. */
  datatype World = World(locks: L.State, store: Store, runs: map<nat, Run>, live: map<Chat, Memory>)

  function Known(memories: map<Chat, Memory>, key: Chat): Option<Memory> {
    if key in memories then Some(memories[key]) else None
  }

  function With(memories: map<Chat, Memory>, key: Chat, memory: Option<Memory>): map<Chat, Memory> {
    if memory.Some? then memories[key := memory.value] else memories - {key}
  }

  function Initial(disk: map<Chat, Memory>, c: Config): World {
    World(L.Initial(), Store(Empty(), map[], disk, 0), map[], map k | k in disk && c.persist && c.durable(k) :: disk[k])
  }

  /** Steps of the lock table, and steps of the run that holds its chat's lock. */
  datatype Step =
    | Locking(step: L.Step)
    | LookUp(task: nat)
    | Enter(task: nat)
    | Write(task: nat, memory: Memory)
    | Close(task: nat)
    | Abandon(task: nat)
    | Forgetting(task: nat)

  predicate Inside(locks: L.State, task: nat) {
    task in locks.tasks && locks.tasks[task].inside
  }

  predicate Holds(w: World, task: nat) {
    Inside(w.locks, task)
  }

  function KeyOf(w: World, task: nat): Chat
    requires task in w.locks.tasks
  {
    w.locks.tasks[task].key
  }

  predicate HasContext(w: World, task: nat) {
    Holds(w, task) && task in w.runs && w.runs[task].Bound? && w.runs[task].ctx in w.store.heap
  }

  ghost predicate Enabled(w: World, step: Step) {
    match step
    case Locking(step) => L.Enabled(w.locks, step) && (step.Leaving? ==> step.task !in w.runs)
    case LookUp(task) => Holds(w, task) && task !in w.runs && w.store.table.Valid()
    case Enter(task) => Holds(w, task) && task in w.runs && w.runs[task].Loading? && w.store.table.Valid()
    case Write(task, memory) => HasContext(w, task)
    case Close(task) => HasContext(w, task)
    case Abandon(task) => Holds(w, task) && task in w.runs
    case Forgetting(task) => Holds(w, task) && task !in w.runs && w.store.table.Valid()
  }

  /** context_for on a hit, before the table is brought back within its cap. */
  function Found(w: World, t: nat): World
    requires Holds(w, t) && w.store.table.Valid() && KeyOf(w, t) in w.store.table.vals
  {
    var key := KeyOf(w, t);
    w.(store := Renewed(w.store, key), runs := w.runs[t := Bound(w.store.table.vals[key])])
  }

  /** context_for on a miss, up to where it may be suspended: the file has been read. */
  function Missed(w: World, t: nat, c: Config): World
    requires Holds(w, t)
  {
    w.(runs := w.runs[t := Loading(Restored(w.store, KeyOf(w, t), c))])
  }

  /** The rest of context_for after a miss: a new context with the memory that was read. */
  function Inserted(w: World, t: nat): World
    requires Holds(w, t) && t in w.runs && w.runs[t].Loading? && w.store.table.Valid()
  {
    var key, memory := KeyOf(w, t), w.runs[t].memory;
    w.(store := Added(w.store, key, memory), runs := w.runs[t := Bound(w.store.clock)], live := With(w.live, key, memory))
  }

  function TrimTable(w: World, c: Config): World
    requires w.store.table.Valid()
  {
    w.(store := w.store.(table := Trimmed(w.store.table, c.cap)))
  }

  /** The run changes its context's memory. */
  function Written(w: World, t: nat, memory: Memory): World
    requires HasContext(w, t)
  {
    w.(store := Changed(w.store, w.runs[t].ctx, memory), live := w.live[KeyOf(w, t) := memory])
  }

  /** persist_memory is the last thing the run does. */
  function Closed(w: World, t: nat, c: Config): World
    requires HasContext(w, t)
  {
    w.(store := Persisted(w.store, KeyOf(w, t), w.runs[t].ctx, c), runs := w.runs - {t})
  }

  /** The run ends without reaching persist_memory. */
  function Abandoned(w: World, t: nat): World {
    w.(runs := w.runs - {t})
  }

  /** The forget handler's wipe, under the chat's lock. */
  function Forgotten(w: World, t: nat): World
    requires Holds(w, t) && w.store.table.Valid()
  {
    w.(store := Wiped(w.store, KeyOf(w, t)), live := w.live - {KeyOf(w, t)})
  }

  function Apply(w: World, step: Step, c: Config, cap: nat): World
    requires Enabled(w, step)
  {
    match step
    case Locking(step) => w.(locks := L.Apply(w.locks, step, cap))
    case LookUp(t) => if KeyOf(w, t) in w.store.table.vals then TrimTable(Found(w, t), c) else Missed(w, t, c)
    case Enter(t) => TrimTable(Inserted(w, t), c)
    case Write(t, memory) => Written(w, t, memory)
    case Close(t) => Closed(w, t, c)
    case Abandon(t) => Abandoned(w, t)
    case Forgetting(t) => Forgotten(w, t)
  }

  // ----- the invariant -----

  /** A chat's table entry holds the chat's live memory, in the chat's own object. */
  ghost predicate EntryInv(w: World, key: Chat)
    requires key in w.store.table.vals
  {
    var ctx := w.store.table.vals[key];
    ctx < w.store.clock && ctx in w.store.heap && w.store.heap[ctx] == Context(key, Known(w.live, key))
  }

  /** A run past the lookup owns its context object; one before it carries what the file says. */
  ghost predicate RunInv(w: World, task: nat, c: Config)
    requires task in w.runs
  {
    && Holds(w, task)
    && var key := KeyOf(w, task);
    && match w.runs[task]
       case Loading(memory) => key !in w.store.table.vals && memory == Restored(w.store, key, c)
       case Bound(ctx) =>
         && ctx < w.store.clock && ctx in w.store.heap && w.store.heap[ctx] == Context(key, Known(w.live, key))
         && (key in w.store.table.vals ==> w.store.table.vals[key] == ctx)
  }

  /** One run per chat, which the lock table guarantees. */
  ghost predicate Exclusive(locks: L.State) {
    forall t, u | Inside(locks, t) && Inside(locks, u) && locks.tasks[t].key == locks.tasks[u].key :: t == u
  }

  ghost predicate StoreInv(w: World, c: Config) {
    && Exclusive(w.locks)
    && w.store.table.Valid()
    && (forall key | key in w.store.table.vals :: EntryInv(w, key))
    && (forall task | task in w.runs :: RunInv(w, task, c))
  }

  ghost predicate Inv(w: World, c: Config) {
    L.Inv(w.locks) && StoreInv(w, c)
  }

  lemma LocksExclude(locks: L.State)
    requires L.Inv(locks)
    ensures Exclusive(locks)
  {
    forall t, u | Inside(locks, t) && Inside(locks, u) && locks.tasks[t].key == locks.tasks[u].key
      ensures t == u
    {
      L.OneInside(locks, t, u);
    }
  }

  /** The other runs are of other chats. */
  lemma OtherChat(w: World, t: nat, u: nat)
    requires Exclusive(w.locks) && Holds(w, t) && Holds(w, u) && t != u
    ensures KeyOf(w, t) != KeyOf(w, u)
  {
  }

  /** A smaller table over the same objects, memories and files keeps every clause. */
  lemma TrimKeepsInv(w: World, table: Dict<Chat, nat>, c: Config)
    requires StoreInv(w, c) && PartOf(table, w.store.table)
    ensures StoreInv(w.(store := w.store.(table := table)), c)
  {
    var n := w.(store := w.store.(table := table));
    forall key | key in table.vals
      ensures EntryInv(n, key)
    {
      assert EntryInv(w, key);
    }
    forall t | t in n.runs
      ensures RunInv(n, t, c)
    {
      assert RunInv(w, t, c);
    }
  }

  /** Nothing about the chat changed. */
  ghost predicate SameChat(w: World, n: World, key: Chat, c: Config) {
    && n.locks == w.locks && n.store.clock >= w.store.clock
    && (key in n.store.table.vals <==> key in w.store.table.vals)
    && (key in n.store.table.vals ==> n.store.table.vals[key] == w.store.table.vals[key])
    && Known(n.live, key) == Known(w.live, key)
    && Restored(n.store, key, c) == Restored(w.store, key, c)
  }

  predicate SameObject(w: World, n: World, ctx: nat) {
    ctx in w.store.heap ==> ctx in n.store.heap && n.store.heap[ctx] == w.store.heap[ctx]
  }

  lemma RunKept(w: World, n: World, u: nat, c: Config)
    requires u in w.runs && u in n.runs && n.runs[u] == w.runs[u] && RunInv(w, u, c)
    requires SameChat(w, n, KeyOf(w, u), c) && (w.runs[u].Bound? ==> SameObject(w, n, w.runs[u].ctx))
    ensures RunInv(n, u, c)
  {
  }

  lemma EntryKept(w: World, n: World, k: Chat, c: Config)
    requires k in w.store.table.vals && EntryInv(w, k)
    requires SameChat(w, n, k, c) && SameObject(w, n, w.store.table.vals[k])
    ensures k in n.store.table.vals && EntryInv(n, k)
  {
  }

  lemma WriteKeepsInv(w: World, t: nat, memory: Memory, c: Config)
    requires StoreInv(w, c) && HasContext(w, t)
    ensures StoreInv(Written(w, t, memory), c)
  {
    var n, key, ctx := Written(w, t, memory), KeyOf(w, t), w.runs[t].ctx;
    assert RunInv(w, t, c);
    forall u | u in n.runs
      ensures RunInv(n, u, c)
    {
      assert RunInv(w, u, c);
      if u != t {
        OtherChat(w, t, u);
        RunKept(w, n, u, c);
      }
    }
    forall k | k in n.store.table.vals
      ensures EntryInv(n, k)
    {
      assert EntryInv(w, k);
      if k != key {
        EntryKept(w, n, k, c);
      }
    }
  }

  lemma AbandonKeepsInv(w: World, t: nat, c: Config)
    requires StoreInv(w, c)
    ensures StoreInv(Abandoned(w, t), c)
  {
    var n := Abandoned(w, t);
    forall u | u in n.runs
      ensures RunInv(n, u, c)
    {
      RunKept(w, n, u, c);
    }
    forall k | k in n.store.table.vals
      ensures EntryInv(n, k)
    {
      EntryKept(w, n, k, c);
    }
  }

  lemma CloseKeepsInv(w: World, t: nat, c: Config)
    requires StoreInv(w, c) && HasContext(w, t)
    ensures StoreInv(Closed(w, t, c), c)
  {
    var n := Closed(w, t, c);
    forall u | u in n.runs
      ensures RunInv(n, u, c)
    {
      assert RunInv(w, u, c);
      OtherChat(w, t, u);
      RunKept(w, n, u, c);
    }
    forall k | k in n.store.table.vals
      ensures EntryInv(n, k)
    {
      assert EntryInv(w, k);
    }
  }

  lemma ForgetKeepsInv(w: World, t: nat, c: Config)
    requires StoreInv(w, c) && Holds(w, t) && t !in w.runs
    ensures StoreInv(Forgotten(w, t), c)
  {
    var n := Forgotten(w, t);
    forall u | u in n.runs
      ensures RunInv(n, u, c)
    {
      assert RunInv(w, u, c);
      OtherChat(w, t, u);
      RunKept(w, n, u, c);
    }
    forall k | k in n.store.table.vals
      ensures EntryInv(n, k)
    {
      assert EntryInv(w, k);
      EntryKept(w, n, k, c);
    }
  }

  lemma MissKeepsInv(w: World, t: nat, c: Config)
    requires StoreInv(w, c) && Holds(w, t) && t !in w.runs && KeyOf(w, t) !in w.store.table.vals
    ensures StoreInv(Missed(w, t, c), c)
  {
    var n := Missed(w, t, c);
    forall u | u in n.runs
      ensures RunInv(n, u, c)
    {
      if u != t {
        RunKept(w, n, u, c);
      }
    }
    forall k | k in n.store.table.vals
      ensures EntryInv(n, k)
    {
      EntryKept(w, n, k, c);
    }
  }

  lemma HitKeepsInv(w: World, t: nat, c: Config)
    requires StoreInv(w, c) && Holds(w, t) && t !in w.runs && KeyOf(w, t) in w.store.table.vals
    ensures StoreInv(Found(w, t), c)
  {
    var n, key := Found(w, t), KeyOf(w, t);
    assert n.store.table.vals == w.store.table.vals;
    assert EntryInv(w, key);
    forall u | u in n.runs
      ensures RunInv(n, u, c)
    {
      if u != t {
        RunKept(w, n, u, c);
      }
    }
    forall k | k in n.store.table.vals
      ensures EntryInv(n, k)
    {
      EntryKept(w, n, k, c);
    }
  }

  lemma InsertKeepsInv(w: World, t: nat, c: Config)
    requires StoreInv(w, c) && Holds(w, t) && t in w.runs && w.runs[t].Loading?
    ensures StoreInv(Inserted(w, t), c)
  {
    var n := Inserted(w, t);
    assert RunInv(w, t, c);
    forall u | u in n.runs
      ensures RunInv(n, u, c)
    {
      if u != t {
        assert RunInv(w, u, c);
        OtherChat(w, t, u);
        RunKept(w, n, u, c);
      }
    }
    forall k | k in n.store.table.vals
      ensures EntryInv(n, k)
    {
      if k != KeyOf(w, t) {
        assert EntryInv(w, k);
        EntryKept(w, n, k, c);
      }
    }
  }

  // ----- every step keeps the invariant -----

  /** The holder of a lock keeps it through every step but its own leaving. */
  lemma HolderStays(s: L.State, step: L.Step, cap: nat, t: nat)
    requires L.Inv(s) && L.Enabled(s, step) && t in s.tasks && s.tasks[t].inside && step != L.Leaving(t)
    ensures var n := L.Apply(s, step, cap); t in n.tasks && n.tasks[t] == s.tasks[t]
  {
    assert L.TaskInv(s, t);
  }

  lemma LockingKeepsInv(w: World, step: L.Step, c: Config, cap: nat)
    requires Inv(w, c) && Enabled(w, Locking(step))
    ensures Inv(Apply(w, Locking(step), c, cap), c)
  {
    L.StepKeepsInv(w.locks, step, cap);
    var n := Apply(w, Locking(step), c, cap);
    LocksExclude(n.locks);
    forall t | t in w.runs
      ensures Holds(n, t) && KeyOf(n, t) == KeyOf(w, t)
    {
      assert RunInv(w, t, c);
      HolderStays(w.locks, step, cap, t);
    }
    forall t | t in n.runs
      ensures RunInv(n, t, c)
    {
      assert RunInv(w, t, c);
    }
    forall key | key in n.store.table.vals
      ensures EntryInv(n, key)
    {
      assert EntryInv(w, key);
    }
  }

  lemma StepKeepsInv(w: World, step: Step, c: Config, cap: nat)
    requires Inv(w, c) && Enabled(w, step)
    ensures Inv(Apply(w, step, c, cap), c)
  {
    match step
    case Locking(step) => LockingKeepsInv(w, step, c, cap);
    case LookUp(t) =>
      if KeyOf(w, t) in w.store.table.vals {
        HitKeepsInv(w, t, c);
        TrimmedIsPart(Found(w, t).store.table, c.cap);
        TrimKeepsInv(Found(w, t), Trimmed(Found(w, t).store.table, c.cap), c);
      } else {
        MissKeepsInv(w, t, c);
      }
    case Enter(t) =>
      InsertKeepsInv(w, t, c);
      TrimmedIsPart(Inserted(w, t).store.table, c.cap);
      TrimKeepsInv(Inserted(w, t), Trimmed(Inserted(w, t).store.table, c.cap), c);
    case Write(t, memory) => WriteKeepsInv(w, t, memory, c);
    case Close(t) => CloseKeepsInv(w, t, c);
    case Abandon(t) => AbandonKeepsInv(w, t, c);
    case Forgetting(t) => ForgetKeepsInv(w, t, c);
  }

  // ----- every run -----

  ghost predicate Possible(w: World, steps: seq<Step>, c: Config, cap: nat)
    decreases |steps|
  {
    steps == [] || (Enabled(w, steps[0]) && Possible(Apply(w, steps[0], c, cap), steps[1..], c, cap))
  }

  ghost function After(w: World, steps: seq<Step>, c: Config, cap: nat): World
    requires Possible(w, steps, c, cap)
    decreases |steps|
  {
    if steps == [] then w else After(Apply(w, steps[0], c, cap), steps[1..], c, cap)
  }

  lemma {:induction false} RunKeepsInv(w: World, steps: seq<Step>, c: Config, cap: nat)
    requires Inv(w, c) && Possible(w, steps, c, cap)
    ensures Inv(After(w, steps, c, cap), c)
    decreases |steps|
  {
    if steps != [] {
      StepKeepsInv(w, steps[0], c, cap);
      RunKeepsInv(Apply(w, steps[0], c, cap), steps[1..], c, cap);
    }
  }

  lemma InitialInv(disk: map<Chat, Memory>, c: Config)
    ensures Inv(Initial(disk, c), c)
  {
    L.InitialInv();
    LocksExclude(L.Initial());
  }

  predicate IsHit(w: World, t: nat) {
    t in w.locks.tasks && KeyOf(w, t) in w.store.table.vals
  }

  lemma LookUpGives(w: World, t: nat, c: Config, cap: nat)
    requires Inv(w, c) && Enabled(w, LookUp(t)) && KeyOf(w, t) in w.store.table.vals
    ensures var n := Apply(w, LookUp(t), c, cap);
            HasContext(n, t) && n.store.heap[n.runs[t].ctx].memory == Known(w.live, KeyOf(w, t))
  {
    hide L.Inv, Trimmed, Without, RunInv, Restored;
    assert EntryInv(w, KeyOf(w, t));
  }

  lemma EnterGives(w: World, t: nat, c: Config, cap: nat)
    requires Inv(w, c) && Enabled(w, Enter(t))
    ensures var n := Apply(w, Enter(t), c, cap);
            HasContext(n, t) && n.store.heap[n.runs[t].ctx].memory == Restored(w.store, KeyOf(w, t), c)
  {
    hide L.Inv, Trimmed;
    assert RunInv(w, t, c);
  }

  /** What a lookup hands out, in any run of the program: the chat's live memory on a hit, and what its
      file said on a miss. */
  lemma LookupIsExact(disk: map<Chat, Memory>, steps: seq<Step>, c: Config, cap: nat, t: nat)
    requires Possible(Initial(disk, c), steps, c, cap)
    requires var w := After(Initial(disk, c), steps, c, cap); Enabled(w, LookUp(t)) || Enabled(w, Enter(t))
    ensures var w := After(Initial(disk, c), steps, c, cap);
            && (Enabled(w, LookUp(t)) && KeyOf(w, t) in w.store.table.vals ==>
                  var n := Apply(w, LookUp(t), c, cap);
                  HasContext(n, t) && n.store.heap[n.runs[t].ctx].memory == Known(w.live, KeyOf(w, t)))
            && (Enabled(w, Enter(t)) ==>
                  var n := Apply(w, Enter(t), c, cap);
                  HasContext(n, t) && n.store.heap[n.runs[t].ctx].memory
                  == if c.persist && c.durable(KeyOf(w, t)) && KeyOf(w, t) in w.store.disk then Some(w.store.disk[KeyOf(w, t)]) else None)
  {
    hide Inv, Apply, HasContext, Known;
    InitialInv(disk, c);
    RunKeepsInv(Initial(disk, c), steps, c, cap);
    var w := After(Initial(disk, c), steps, c, cap);
    if Enabled(w, Enter(t)) {
      EnterGives(w, t, c, cap);
    }
    if Enabled(w, LookUp(t)) && IsHit(w, t) {
      LookUpGives(w, t, c, cap);
    }
  }

  lemma NewestStays(table: Dict<Chat, nat>, key: Chat, cap: nat)
    requires table.Valid() && table.keys != [] && table.keys[|table.keys| - 1] == key
    ensures var t := Trimmed(table, cap);
            |t.keys| <= cap && (cap > 0 ==> t.keys != [] && t.keys[|t.keys| - 1] == key)
  {
    TrimmedKeepsNewest(table, cap);
  }

  /** Only the end of a run and a forget touch files, and only their chat's: a run's end writes the run's own
      memory when persistence is on, the chat may have a file and there is a memory; a forget removes it. */
  lemma FileChanges(w: World, step: Step, key: Chat, c: Config, cap: nat)
    requires Enabled(w, step)
    ensures var before, after := Known(w.store.disk, key), Known(Apply(w, step, c, cap).store.disk, key);
            if step.Forgetting? && KeyOf(w, step.task) == key then after == None
            else if step.Close? && KeyOf(w, step.task) == key && c.persist && c.durable(key)
                    && w.store.heap[w.runs[step.task].ctx].memory.Some?
            then after == w.store.heap[w.runs[step.task].ctx].memory
            else after == before
  {
    hide L.Apply, L.Enabled, Trimmed, Without;
  }

  /** After a lookup the table is within its cap, and the chat just looked up is the last to be dropped. */
  lemma HitWithinCap(s: Store, key: Chat, cap: nat)
    requires s.table.Valid() && key in s.table.vals
    ensures var keys := Trimmed(Renewed(s, key).table, cap).keys;
            |keys| <= cap && (cap > 0 ==> keys != [] && keys[|keys| - 1] == key)
  {
    hide Without, Trimmed;
    NewestStays(Renewed(s, key).table, key, cap);
  }

  lemma MissWithinCap(s: Store, key: Chat, memory: Option<Memory>, cap: nat)
    requires s.table.Valid() && key !in s.table.vals
    ensures var keys := Trimmed(Added(s, key, memory).table, cap).keys;
            |keys| <= cap && (cap > 0 ==> keys != [] && keys[|keys| - 1] == key)
  {
    NewestStays(Added(s, key, memory).table, key, cap);
  }

  /** So a run that gets its context leaves the newest entries, at most as many as the cap, in their order,
      with its own chat's behind all others. */
  lemma NewestEntriesStay(w: World, step: Step, c: Config, cap: nat)
    requires Inv(w, c) && Enabled(w, step)
    requires step.Enter? || (step.LookUp? && KeyOf(w, step.task) in w.store.table.vals)
    ensures var key := KeyOf(w, step.task);
            var before, after := Without(w.store.table.keys, key) + [key], Apply(w, step, c, cap).store.table.keys;
            after == if |before| <= c.cap then before else before[|before| - c.cap..]
  {
    hide L.Inv, L.Apply, L.Enabled, Trimmed, EntryInv;
    var key, t := KeyOf(w, step.task), step.task;
    if step.Enter? {
      assert RunInv(w, t, c);
      NotListed(w.store.table.keys, key);
      TrimmedKeepsNewest(Inserted(w, t).store.table, c.cap);
    } else {
      assert key !in w.store.table.Remove(key).vals;
      TrimmedKeepsNewest(Found(w, t).store.table, c.cap);
    }
  }

  lemma {:induction false} NotListed(keys: seq<Chat>, key: Chat)
    requires key !in keys
    ensures Without(keys, key) == keys
  {
    if keys != [] {
      NotListed(keys[1..], key);
    }
  }

  // ----- a chat whose runs all end in persist_memory -----

  /** A run of the chat has its context. */
  ghost predicate InUse(w: World, key: Chat) {
    exists t :: HasContext(w, t) && KeyOf(w, t) == key
  }

  /** Between runs the chat's file says what its newest context holds. */
  ghost predicate Tidy(w: World, key: Chat) {
    if InUse(w, key) then Known(w.live, key).None? ==> key !in w.store.disk
    else Known(w.live, key) == Known(w.store.disk, key)
  }

  /** The step does not end a run of the chat that has its context before persist_memory. */
  predicate Orderly(w: World, step: Step, key: Chat) {
    step.Abandon? && HasContext(w, step.task) ==> KeyOf(w, step.task) != key
  }

  lemma NotInUse(w: World, t: nat, c: Config)
    requires StoreInv(w, c) && Holds(w, t) && (t in w.runs ==> w.runs[t].Loading?)
    ensures !InUse(w, KeyOf(w, t))
  {
  }

  lemma LockingKeepsUse(w: World, step: L.Step, key: Chat, c: Config, cap: nat)
    requires Inv(w, c) && Enabled(w, Locking(step))
    ensures InUse(Apply(w, Locking(step), c, cap), key) <==> InUse(w, key)
  {
    var n := Apply(w, Locking(step), c, cap);
    forall t | t in w.runs
      ensures Holds(n, t) && Holds(w, t) && KeyOf(n, t) == KeyOf(w, t)
    {
      assert RunInv(w, t, c);
      HolderStays(w.locks, step, cap, t);
    }
    assert forall t :: HasContext(n, t) <==> HasContext(w, t);
  }

  /** Runs of other chats leave a chat's use alone. */
  lemma OthersKeepUse(w: World, n: World, t: nat, key: Chat)
    requires n.locks == w.locks && Holds(w, t) && KeyOf(w, t) != key
    requires forall u | u != t :: HasContext(n, u) <==> HasContext(w, u)
    ensures InUse(n, key) <==> InUse(w, key)
  {
  }

  lemma OtherStepSame(w: World, step: Step, key: Chat, c: Config, cap: nat)
    requires Enabled(w, step) && !step.Locking? && step.task in w.locks.tasks && KeyOf(w, step.task) != key
    ensures var n := Apply(w, step, c, cap);
            && n.locks == w.locks && Known(n.live, key) == Known(w.live, key) && Known(n.store.disk, key) == Known(w.store.disk, key)
            && (forall x | x in w.store.heap :: x in n.store.heap)
            && (forall u | u != step.task :: (u in n.runs <==> u in w.runs) && (u in n.runs ==> n.runs[u] == w.runs[u]))
  {
  }

  lemma OtherStepKeepsTidy(w: World, step: Step, key: Chat, c: Config, cap: nat)
    requires Inv(w, c) && Enabled(w, step) && Tidy(w, key) && !step.Locking? && Holds(w, step.task) && KeyOf(w, step.task) != key
    ensures Tidy(Apply(w, step, c, cap), key)
  {
    var n, t := Apply(w, step, c, cap), step.task;
    OtherStepSame(w, step, key, c, cap);
    forall u | u != t
      ensures HasContext(n, u) <==> HasContext(w, u)
    {
      if u in w.runs {
        assert RunInv(w, u, c);
      }
    }
    OthersKeepUse(w, n, t, key);
  }

  lemma OrderlyKeepsTidy(w: World, step: Step, key: Chat, c: Config, cap: nat)
    requires Inv(w, c) && Enabled(w, step) && Tidy(w, key) && Orderly(w, step, key) && c.persist && c.durable(key)
    ensures Tidy(Apply(w, step, c, cap), key)
  {
    var n := Apply(w, step, c, cap);
    if step.Locking? {
      LockingKeepsUse(w, step.step, key, c, cap);
    } else {
      var t := step.task;
      assert t in w.runs ==> RunInv(w, t, c);
      if KeyOf(w, t) != key {
        OtherStepKeepsTidy(w, step, key, c, cap);
      } else {
        OwnStepKeepsTidy(w, step, key, c, cap);
      }
    }
  }

  lemma OwnStepKeepsTidy(w: World, step: Step, key: Chat, c: Config, cap: nat)
    requires Inv(w, c) && Enabled(w, step) && Tidy(w, key) && Orderly(w, step, key) && c.persist && c.durable(key)
    requires !step.Locking? && step.task in w.locks.tasks && KeyOf(w, step.task) == key
    ensures Tidy(Apply(w, step, c, cap), key)
  {
    hide L.Inv, L.Apply, L.Enabled, Trimmed;
    var n, t := Apply(w, step, c, cap), step.task;
    StepKeepsInv(w, step, c, cap);
    if t in n.runs && n.runs[t].Bound? {
      assert RunInv(n, t, c);
      assert HasContext(n, t);
    } else {
      NotInUse(n, t, c);
    }
    if t in w.runs {
      assert RunInv(w, t, c);
      assert w.runs[t].Bound? ==> HasContext(w, t);
    }
    if !(t in w.runs && w.runs[t].Bound?) {
      NotInUse(w, t, c);
    }
  }

  // ----- a chat's memory as a plain cell -----

  /** What the step does to a cell that just holds the chat's memory. */
  function Plain(w: World, step: Step, key: Chat, memory: Option<Memory>): Option<Memory> {
    match step
    case Write(t, m) => if t in w.locks.tasks && KeyOf(w, t) == key then Some(m) else memory
    case Forgetting(t) => if t in w.locks.tasks && KeyOf(w, t) == key then None else memory
    case _ => memory
  }

  ghost function PlainRun(w: World, steps: seq<Step>, key: Chat, memory: Option<Memory>, c: Config, cap: nat): Option<Memory>
    requires Possible(w, steps, c, cap)
    decreases |steps|
  {
    if steps == [] then memory
    else PlainRun(Apply(w, steps[0], c, cap), steps[1..], key, Plain(w, steps[0], key, memory), c, cap)
  }

  ghost predicate OrderlyRun(w: World, steps: seq<Step>, key: Chat, c: Config, cap: nat)
    requires Possible(w, steps, c, cap)
    decreases |steps|
  {
    steps == [] || (Orderly(w, steps[0], key) && OrderlyRun(Apply(w, steps[0], c, cap), steps[1..], key, c, cap))
  }

  /** Entering the table with what the file said changes nothing for a tidy chat. */
  lemma EnterIsPlain(w: World, t: nat, key: Chat, c: Config)
    requires StoreInv(w, c) && Holds(w, t) && t in w.runs && w.runs[t].Loading? && Tidy(w, key) && c.persist && c.durable(key)
    ensures Known(Inserted(w, t).live, key) == Known(w.live, key)
  {
    if KeyOf(w, t) == key {
      assert RunInv(w, t, c);
      NotInUse(w, t, c);
    }
  }

  lemma StepIsPlain(w: World, step: Step, key: Chat, c: Config, cap: nat)
    requires Inv(w, c) && Enabled(w, step) && Tidy(w, key) && c.persist && c.durable(key)
    ensures Known(Apply(w, step, c, cap).live, key) == Plain(w, step, key, Known(w.live, key))
  {
    hide L.Inv, L.Apply, L.Enabled, Trimmed, Tidy;
    if step.Enter? {
      EnterIsPlain(w, step.task, key, c);
    }
  }

  lemma {:induction false} RunIsPlain(w: World, steps: seq<Step>, key: Chat, c: Config, cap: nat)
    requires Inv(w, c) && Possible(w, steps, c, cap) && OrderlyRun(w, steps, key, c, cap) && Tidy(w, key) && c.persist && c.durable(key)
    ensures Known(After(w, steps, c, cap).live, key) == PlainRun(w, steps, key, Known(w.live, key), c, cap)
    decreases |steps|
  {
    if steps != [] {
      StepIsPlain(w, steps[0], key, c, cap);
      StepKeepsInv(w, steps[0], c, cap);
      OrderlyKeepsTidy(w, steps[0], key, c, cap);
      RunIsPlain(Apply(w, steps[0], c, cap), steps[1..], key, c, cap);
    }
  }

  /** The table and the files refine a plain map: with persistence on, and every run of the chat ending
      in persist_memory, any run that has the chat's context sees the last memory written since the
      last forget, whatever was evicted or interleaved. */
  lemma ContextIsLatest(disk: map<Chat, Memory>, steps: seq<Step>, c: Config, cap: nat, t: nat)
    requires Possible(Initial(disk, c), steps, c, cap) && c.persist
    requires var w := After(Initial(disk, c), steps, c, cap); HasContext(w, t)
    requires var key := KeyOf(After(Initial(disk, c), steps, c, cap), t); c.durable(key) && OrderlyRun(Initial(disk, c), steps, key, c, cap)
    ensures var w := After(Initial(disk, c), steps, c, cap);
            w.store.heap[w.runs[t].ctx].memory
            == PlainRun(Initial(disk, c), steps, KeyOf(w, t), Known(disk, KeyOf(w, t)), c, cap)
  {
    var w0 := Initial(disk, c);
    var w := After(w0, steps, c, cap);
    InitialInv(disk, c);
    RunKeepsInv(w0, steps, c, cap);
    assert RunInv(w, t, c);
    assert !InUse(w0, KeyOf(w, t));
    RunIsPlain(w0, steps, KeyOf(w, t), c, cap);
  }

  // ----- the module's dictionary and files, changed in place -----

  class ContextTable {
    var table: Dict<Chat, nat>
    var heap: map<nat, Context>
    var disk: map<Chat, Memory>
    var clock: nat
    const config: Config

    constructor (disk: map<Chat, Memory>, config: Config)
      ensures View() == Store(Empty(), map[], disk, 0) && this.config == config
    {
      table, heap, clock := Empty(), map[], 0;
      this.disk := disk;
      this.config := config;
    }

    function View(): Store
      reads this
    {
      Store(table, heap, disk, clock)
    }

    method EvictOldest()
      requires table.Valid()
      modifies this`table
      ensures table.Valid() && table == Trimmed(old(table), config.cap)
    {
      while |table.keys| > config.cap
        invariant table.Valid() && Trimmed(table, config.cap) == Trimmed(old(table), config.cap)
        decreases |table.keys|
      {
        table := table.Remove(table.Oldest());
      }
    }

    /** context_for up to its await: the context on a hit, what the file says on a miss. */
    method Find(key: Chat) returns (found: Run)
      requires table.Valid()
      modifies this`table
      ensures found.Bound? <==> key in old(table.vals)
      ensures found.Bound? ==> found.ctx == old(table.vals[key])
      ensures found.Bound? ==> View() == Renewed(old(View()), key).(table := Trimmed(Renewed(old(View()), key).table, config.cap))
      ensures found.Loading? ==> View() == old(View()) && found.memory == Restored(View(), key, config)
    {
      if key in table.vals {
        found := Bound(table.vals[key]);
        table := table.Remove(key);
        table := table.Put(key, found.ctx);
        EvictOldest();
      } else {
        found := Loading(if config.persist && config.durable(key) && key in disk then Some(disk[key]) else None);
      }
    }

    /** context_for after its await on a miss. */
    method Add(key: Chat, memory: Option<Memory>) returns (ctx: nat)
      requires table.Valid()
      modifies this
      ensures ctx == old(clock)
      ensures View() == Added(old(View()), key, memory).(table := Trimmed(Added(old(View()), key, memory).table, config.cap))
    {
      ctx := clock;
      clock := clock + 1;
      heap := heap[ctx := Context(key, memory)];
      table := table.Put(key, ctx);
      EvictOldest();
    }

    method PersistMemory(key: Chat, ctx: nat)
      requires ctx in heap
      modifies this`disk
      ensures View() == Persisted(old(View()), key, ctx, config)
    {
      if config.persist {
        var memory := heap[ctx].memory;
        if memory.Some? && config.durable(key) {
          disk := disk[key := memory.value];
        }
      }
    }

    method ForgetChat(key: Chat) returns (wasLive: bool)
      requires table.Valid()
      modifies this`table, this`disk
      ensures View() == Wiped(old(View()), key) && wasLive == (key in old(table.vals))
    {
      wasLive := key in table.vals;
      table := table.Remove(key);
      disk := disk - {key};
    }
  }
}
