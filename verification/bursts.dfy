/** Burst assembly (src/wahabot/ai/bursts.py). */
module Bursts {
  // One sender's rapid messages are held until a timer completes them as one turn. Adds and timers of
  // all senders interleave; the code between two suspensions is one step. A timer may run any time at
  // or after its deadline, and one that was cancelled may still run.


  datatype BurstKey = BurstKey(session: string, chat: string, sender: string)

  datatype Buffer = Buffer(ids: seq<string>, firstSeen: real)

  /** A timer task: what it will flush and when its sleep ends. */
  datatype Timer = Timer(key: BurstKey, due: real)

  datatype Completed = Completed(key: BurstKey, ids: seq<string>)

  datatype Config = Config(inactivity: real, holdCap: real)

  /** `timers` is the table of registered timers; `tasks` has every timer that has not run yet,
      superseded ones included. */
  datatype State = State(
    buffers: map<BurstKey, Buffer>,
    timers: map<BurstKey, nat>,
    tasks: map<nat, Timer>,
    completed: seq<Completed>,
    spawned: nat)

  const INITIAL := State(map[], map[], map[], [], 0)

  function MinReal(a: real, b: real): real {
    if a <= b then a else b
  }

  function MaxReal(a: real, b: real): real {
    if a >= b then a else b
  }

  // ----- the two steps -----

  /** Seconds from now until the flush: the inactivity window, cut by what is left of the hold cap. */
  function Delay(firstSeen: real, now: real, c: Config): real {
    MaxReal(MinReal(c.inactivity, c.holdCap - (now - firstSeen)), 0.0)
  }

  function Grown(s: State, key: BurstKey, id: string, now: real): Buffer {
    if key in s.buffers then s.buffers[key].(ids := s.buffers[key].ids + [id]) else Buffer([id], now)
  }

  /** `add`: buffer the id and replace the key's timer. A sender without a name is not buffered. */
  function Add(s: State, key: BurstKey, id: string, now: real, c: Config): State {
    if key.sender == "" then s
    else
      var buffer := Grown(s, key, id, now);
      s.(buffers := s.buffers[key := buffer],
         timers := s.timers[key := s.spawned],
         tasks := s.tasks[s.spawned := Timer(key, now + Delay(buffer.firstSeen, now, c))],
         spawned := s.spawned + 1)
  }

  /** `flush_later` after its sleep: a timer that finds another one registered for its key returns. */
  function Fire(s: State, task: nat): State
    requires task in s.tasks
  {
    var key := s.tasks[task].key;
    var ended := s.(tasks := s.tasks - {task});
    if key in s.timers && s.timers[key] != task then ended
    else
      ended.(timers := s.timers - {key}, buffers := s.buffers - {key},
             completed := if key in s.buffers && s.buffers[key].ids != []
                          then s.completed + [Completed(key, s.buffers[key].ids)] else s.completed)
  }

  // ----- what was accepted, and when -----

  /** The history no field records: every id accepted for a key, in order, the time of its latest
      add, and the time now. */
  datatype World = World(state: State, accepted: map<BurstKey, seq<string>>, latest: map<BurstKey, real>, now: real)

  datatype Step = Adding(key: BurstKey, id: string, at: real) | Firing(task: nat, at: real)

  function AcceptedOf(accepted: map<BurstKey, seq<string>>, key: BurstKey): seq<string> {
    if key in accepted then accepted[key] else []
  }

  predicate Enabled(w: World, step: Step) {
    match step
    case Adding(key, id, at) => at >= w.now
    case Firing(task, at) => at >= w.now && task in w.state.tasks && at >= w.state.tasks[task].due
  }

  function Apply(w: World, step: Step, c: Config): World
    requires Enabled(w, step)
  {
    match step
    case Adding(key, id, at) =>
      if key.sender == "" then w.(now := at)
      else World(Add(w.state, key, id, at, c), w.accepted[key := AcceptedOf(w.accepted, key) + [id]], w.latest[key := at], at)
    case Firing(task, at) => w.(state := Fire(w.state, task), now := at)
  }

  /** The ids of a key's completed buffers, in order of completion. */
  function CompletedOf(completed: seq<Completed>, key: BurstKey): seq<string> {
    if completed == [] then []
    else
      var last := completed[|completed| - 1];
      CompletedOf(completed[..|completed| - 1], key) + if last.key == key then last.ids else []
  }

  function OpenOf(buffers: map<BurstKey, Buffer>, key: BurstKey): seq<string> {
    if key in buffers then buffers[key].ids else []
  }

  // ----- the invariant -----

  /** A key's buffer and its registered timer come and go together; the timer is a task still to run,
      for that key, due as late as the inactivity window and the hold cap allow. */
  ghost predicate KeyInv(w: World, key: BurstKey, c: Config) {
    var s := w.state;
    && (key in s.buffers <==> key in s.timers)
    && AcceptedOf(w.accepted, key) == CompletedOf(s.completed, key) + OpenOf(s.buffers, key)
    && (key in s.buffers ==>
          && s.buffers[key].ids != []
          && s.timers[key] in s.tasks && s.tasks[s.timers[key]].key == key
          && key in w.latest
          && s.buffers[key].firstSeen <= w.latest[key] <= w.now
          && s.tasks[s.timers[key]].due
             == MaxReal(w.latest[key], MinReal(w.latest[key] + c.inactivity, s.buffers[key].firstSeen + c.holdCap)))
  }

  ghost predicate Inv(w: World, c: Config) {
    && (forall key :: KeyInv(w, key, c))
    && (forall task | task in w.state.tasks :: task < w.state.spawned)
  }

  lemma CompletedSnoc(completed: seq<Completed>, done: Completed, key: BurstKey)
    ensures CompletedOf(completed + [done], key) == CompletedOf(completed, key) + if done.key == key then done.ids else []
  {
    assert (completed + [done])[..|completed|] == completed;
  }

  lemma AddKeepsKey(w: World, key: BurstKey, id: string, at: real, c: Config, other: BurstKey)
    requires Inv(w, c) && at >= w.now
    ensures KeyInv(Apply(w, Adding(key, id, at), c), other, c)
  {
    assert KeyInv(w, other, c);
    if key.sender != "" && other == key {
      var open := OpenOf(w.state.buffers, key);
      assert CompletedOf(w.state.completed, key) + open + [id] == CompletedOf(w.state.completed, key) + (open + [id]);
    }
  }

  /** A timer that is not the registered one leaves the key's buffer and timer alone. */
  lemma StrayKeepsKey(w: World, task: nat, at: real, c: Config, other: BurstKey)
    requires Inv(w, c) && Enabled(w, Firing(task, at))
    requires var key := w.state.tasks[task].key; key in w.state.timers ==> w.state.timers[key] != task
    ensures KeyInv(Apply(w, Firing(task, at), c), other, c)
  {
    hide CompletedOf, MaxReal, MinReal;
    assert KeyInv(w, other, c) && KeyInv(w, w.state.tasks[task].key, c);
  }

  lemma FlushKeepsKey(w: World, task: nat, at: real, c: Config, other: BurstKey)
    requires Inv(w, c) && Enabled(w, Firing(task, at))
    requires var key := w.state.tasks[task].key; key in w.state.timers && w.state.timers[key] == task
    ensures KeyInv(Apply(w, Firing(task, at), c), other, c)
  {
    hide CompletedOf, MaxReal, MinReal;
    var s := w.state;
    var key := s.tasks[task].key;
    assert KeyInv(w, other, c) && KeyInv(w, key, c);
    CompletedSnoc(s.completed, Completed(key, s.buffers[key].ids), other);
    assert OpenOf(s.buffers - {key}, other) == if other == key then [] else OpenOf(s.buffers, other);
  }

  lemma FireKeepsKey(w: World, task: nat, at: real, c: Config, other: BurstKey)
    requires Inv(w, c) && Enabled(w, Firing(task, at))
    ensures KeyInv(Apply(w, Firing(task, at), c), other, c)
  {
    hide KeyInv, Inv, Apply;
    var key := w.state.tasks[task].key;
    if key in w.state.timers && w.state.timers[key] == task {
      FlushKeepsKey(w, task, at, c, other);
    } else {
      StrayKeepsKey(w, task, at, c, other);
    }
  }

  lemma StepKeepsInv(w: World, step: Step, c: Config)
    requires Inv(w, c) && Enabled(w, step)
    ensures Inv(Apply(w, step, c), c)
  {
    var n := Apply(w, step, c);
    forall other
      ensures KeyInv(n, other, c)
    {
      match step
      case Adding(key, id, at) => AddKeepsKey(w, key, id, at, c, other);
      case Firing(task, at) => FireKeepsKey(w, task, at, c, other);
    }
  }

  // ----- every run -----

  predicate Possible(w: World, steps: seq<Step>, c: Config)
    decreases |steps|
  {
    steps == [] || (Enabled(w, steps[0]) && Possible(Apply(w, steps[0], c), steps[1..], c))
  }

  function After(w: World, steps: seq<Step>, c: Config): World
    requires Possible(w, steps, c)
    decreases |steps|
  {
    if steps == [] then w else After(Apply(w, steps[0], c), steps[1..], c)
  }

  function Start(now: real): World {
    World(INITIAL, map[], map[], now)
  }

  lemma {:induction false} RunKeepsInv(w: World, steps: seq<Step>, c: Config)
    requires Inv(w, c) && Possible(w, steps, c)
    ensures Inv(After(w, steps, c), c)
    decreases |steps|
  {
    if steps != [] {
      StepKeepsInv(w, steps[0], c);
      RunKeepsInv(Apply(w, steps[0], c), steps[1..], c);
    }
  }

  lemma ReachedInv(start: real, steps: seq<Step>, c: Config)
    requires Possible(Start(start), steps, c)
    ensures Inv(After(Start(start), steps, c), c)
  {
    RunKeepsInv(Start(start), steps, c);
  }

  /** Conservation: for every key, the ids of its completed buffers followed by those of its open one
      are exactly the ids accepted, each once, in order of arrival. */
  lemma NothingLostNothingTwice(start: real, steps: seq<Step>, c: Config, key: BurstKey)
    requires Possible(Start(start), steps, c)
    ensures var w := After(Start(start), steps, c);
            AcceptedOf(w.accepted, key) == CompletedOf(w.state.completed, key) + OpenOf(w.state.buffers, key)
  {
    ReachedInv(start, steps, c);
    assert KeyInv(After(Start(start), steps, c), key, c);
  }

  /** Every open buffer has a registered timer of its own, still to run and due no later than the hold
      cap after its first message or the time of its latest; a registered timer always has its buffer. */
  lemma OpenBufferHasItsTimer(start: real, steps: seq<Step>, c: Config, key: BurstKey)
    requires Possible(Start(start), steps, c)
    ensures var w := After(Start(start), steps, c);
            && (key in w.state.timers <==> key in w.state.buffers)
            && (key in w.state.buffers ==>
                  && key in w.latest
                  && w.state.timers[key] in w.state.tasks
                  && w.state.tasks[w.state.timers[key]].key == key
                  && w.state.tasks[w.state.timers[key]].due <= MaxReal(w.state.buffers[key].firstSeen + c.holdCap, w.latest[key])
                  && (forall other | other in w.state.timers && other != key :: w.state.timers[other] != w.state.timers[key]))
  {
    ReachedInv(start, steps, c);
    var w := After(Start(start), steps, c);
    assert KeyInv(w, key, c);
    forall other | key in w.state.buffers && other in w.state.timers && other != key
      ensures w.state.timers[other] != w.state.timers[key]
    {
      assert KeyInv(w, other, c);
    }
  }

  /** A timer completes a buffer only when it is the one registered for it, and then with all its ids;
      a superseded timer that runs all the same changes nothing but the list of tasks. */
  lemma OnlyTheRegisteredTimerFlushes(start: real, steps: seq<Step>, c: Config, task: nat, at: real)
    requires Possible(Start(start), steps, c) && Enabled(After(Start(start), steps, c), Firing(task, at))
    ensures var s := After(Start(start), steps, c).state;
            var n, key := Fire(s, task), s.tasks[task].key;
            if key in s.timers && s.timers[key] == task then
              && key in s.buffers && s.buffers[key].ids != []
              && n.completed == s.completed + [Completed(key, s.buffers[key].ids)]
              && n.buffers == s.buffers - {key} && n.timers == s.timers - {key}
            else n == s.(tasks := s.tasks - {task})
  {
    ReachedInv(start, steps, c);
    var w := After(Start(start), steps, c);
    assert KeyInv(w, w.state.tasks[task].key, c);
  }

  /** A buffer is completed only after its sender was silent for the inactivity window or the hold cap
      has passed since its first message. */
  lemma NoEarlyFlush(start: real, steps: seq<Step>, c: Config, task: nat, at: real)
    requires Possible(Start(start), steps, c) && Enabled(After(Start(start), steps, c), Firing(task, at))
    requires var w := After(Start(start), steps, c);
             |Apply(w, Firing(task, at), c).state.completed| > |w.state.completed|
    ensures var w := After(Start(start), steps, c);
            var key := w.state.tasks[task].key;
            && key in w.latest && key in w.state.buffers
            && (at >= w.latest[key] + c.inactivity || at >= w.state.buffers[key].firstSeen + c.holdCap)
  {
    ReachedInv(start, steps, c);
    var w := After(Start(start), steps, c);
    assert KeyInv(w, w.state.tasks[task].key, c);
  }

  // ----- the object -----

  class BurstTable {
    const config: Config
    var buffers: map<BurstKey, Buffer>
    var timers: map<BurstKey, nat>
    var tasks: map<nat, Timer>
    var completed: seq<Completed>
    var spawned: nat

    constructor (config: Config)
      ensures View() == INITIAL && this.config == config
    {
      this.config := config;
      buffers, timers, tasks, completed, spawned := map[], map[], map[], [], 0;
    }

    function View(): State
      reads this
    {
      State(buffers, timers, tasks, completed, spawned)
    }

    method AddMessage(id: string, key: BurstKey, now: real) returns (held: bool)
      modifies this
      ensures View() == Add(old(View()), key, id, now, config)
      ensures held == (key.sender != "")
    {
      if key.sender == "" {
        return false;
      }
      var buffer := if key in buffers then buffers[key] else Buffer([], now);
      buffer := buffer.(ids := buffer.ids + [id]);
      assert [] + [id] == [id];
      assert buffer == Grown(View(), key, id, now);
      buffers := buffers[key := buffer];
      var remaining := config.holdCap - (now - buffer.firstSeen);
      var delay := MaxReal(MinReal(config.inactivity, remaining), 0.0);
      timers := timers - {key};
      tasks := tasks[spawned := Timer(key, now + delay)];
      timers := timers[key := spawned];
      spawned := spawned + 1;
      held := true;
      assert timers == old(timers)[key := old(spawned)];
    }

    method FlushLater(task: nat)
      requires task in tasks
      modifies this`buffers, this`timers, this`tasks, this`completed
      ensures View() == Fire(old(View()), task)
    {
      var key := tasks[task].key;
      tasks := tasks - {task};
      if key in timers && timers[key] != task {
        return;
      }
      timers := timers - {key};
      if key in buffers {
        var buffer := buffers[key];
        buffers := buffers - {key};
        if buffer.ids != [] {
          completed := completed + [Completed(key, buffer.ids)];
        }
      }
      assert buffers == old(buffers) - {key};
    }
  }
}
