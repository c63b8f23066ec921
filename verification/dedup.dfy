/** Duplicates (src/wahabot/handlers/dedup.py). */
module Dedup {
  import opened Optional
  import opened OrderedDict
  import opened Sequences
  import opened TtlCaches

  type Seen = Dict<string, Entry<bool>>

  /** seen_recently: whether the id is marked and alive; an unmarked id is marked now. */
  function SeenRecently(d: Seen, id: string, now: real, ttl: real, cap: nat): (Seen, bool)
    requires d.Valid() && cap > 0
  {
    if id == "" then (d, false)
    else
      var (e, hit) := Got(d, id, now, ttl);
      if hit.Some? then (e, true) else (Putted(e, id, true, now, cap), false)
  }

  method CheckSeen(cache: TtlCache<string, bool>, id: string, now: real) returns (seen: bool)
    requires cache.Valid()
    modifies cache`entries
    ensures cache.Valid()
    ensures (cache.entries, seen) == SeenRecently(old(cache.entries), id, now, cache.ttl, cache.cap)
  {
    if id == "" {
      return false;
    }
    var hit := cache.Get(id, now);
    if hit.Some? {
      return true;
    }
    cache.Put(id, true, now);
    seen := false;
  }

  method ForgetSeen(cache: TtlCache<string, bool>, id: string)
    requires cache.Valid()
    modifies cache`entries
    ensures cache.Valid() && cache.entries == old(cache.entries).Remove(id)
  {
    cache.Drop(id);
  }

  // ----- what was ever marked -----

  /** A mark: when, and which other ids were marked since. */
  datatype Mark = Mark(at: real, since: set<string>)

  /** `marks` has the latest mark of every id that was not forgotten since, whether or not the cache
      still has it. */
  datatype World = World(seen: Seen, marks: map<string, Mark>, now: real)

  datatype Config = Config(ttl: real, cap: nat)

  datatype Step = Checking(id: string, at: real) | Forgetting(id: string)

  ghost predicate Enabled(w: World, step: Step, c: Config) {
    w.seen.Valid() && c.cap > 0 && (step.Checking? ==> step.at >= w.now)
  }

  /** The id is marked, and every other mark is one id older. */
  function MarkedAlso(marks: map<string, Mark>, id: string, at: real): map<string, Mark> {
    (map k | k in marks :: Mark(marks[k].at, marks[k].since + {id}))[id := Mark(at, {})]
  }

  function Apply(w: World, step: Step, c: Config): World
    requires Enabled(w, step, c)
  {
    match step
    case Checking(id, at) =>
      var (d, seen) := SeenRecently(w.seen, id, at, c.ttl, c.cap);
      if id == "" || seen then w.(seen := d, now := at)
      else World(d, MarkedAlso(w.marks, id, at), at)
    case Forgetting(id) => w.(seen := w.seen.Remove(id), marks := w.marks - {id})
  }

  // ----- ids in the order of their marks -----

  /** Whatever stands behind an id in the cache was marked since. */
  ghost predicate InOrder(keys: seq<string>, marks: map<string, Mark>) {
    && (forall i | 0 <= i < |keys| :: keys[i] in marks)
    && (forall i, j | 0 <= i < j < |keys| :: keys[j] in marks[keys[i]].since)
  }

  lemma OrderWithout(keys: seq<string>, marks: map<string, Mark>, id: string)
    requires InOrder(keys, marks)
    ensures InOrder(Without(keys, id), marks)
  {
    var p := WithoutAt(keys, id);
    var rest := Without(keys, id);
    forall i, j | 0 <= i < j < |rest|
      ensures rest[i] in marks && rest[j] in marks && rest[j] in marks[rest[i]].since
    {
      assert rest[i] == keys[if i < p then i else i + 1];
      assert rest[j] == keys[if j < p then j else j + 1];
    }
  }

  lemma OrderUnmarked(keys: seq<string>, marks: map<string, Mark>, id: string)
    requires InOrder(keys, marks) && id !in keys
    ensures InOrder(keys, marks - {id})
  {
  }

  lemma OrderSuffix(keys: seq<string>, marks: map<string, Mark>, k: nat)
    requires InOrder(keys, marks) && k <= |keys|
    ensures InOrder(keys[k..], marks)
  {
  }

  lemma OrderSnoc(keys: seq<string>, marks: map<string, Mark>, id: string, at: real)
    requires InOrder(keys, marks) && id !in keys
    ensures InOrder(keys + [id], MarkedAlso(marks, id, at))
  {
    var all, next := keys + [id], MarkedAlso(marks, id, at);
    forall i, j | 0 <= i < j < |all|
      ensures all[j] in next[all[i]].since
    {
      assert all[i] == keys[i];
    }
  }

  function Elements(s: seq<string>): (r: set<string>)
    ensures forall x :: x in r <==> x in s
  {
    set x | x in s
  }

  /** All ids behind one of them were marked since, and they are distinct. */
  lemma ManySince(keys: seq<string>, marks: map<string, Mark>, i: nat, id: string)
    requires Distinct(keys) && InOrder(keys, marks) && i < |keys| && id !in keys
    ensures |marks[keys[i]].since + {id}| >= |keys| - i
  {
    var behind := keys[i + 1..];
    assert Distinct(behind);
    DistinctCount(behind);
    assert Elements(behind) == set x | x in behind;
    forall x | x in behind
      ensures x in marks[keys[i]].since && x != id
    {
      var j :| 0 <= j < |behind| && behind[j] == x;
      assert x == keys[i + 1 + j];
    }
    SubsetSize(Elements(behind) + {id}, marks[keys[i]].since + {id});
  }

  // ----- the invariant -----

  /** An entry of the cache is its id's latest mark. */
  predicate EntryInv(w: World, id: string) {
    id in w.seen.vals ==> id in w.marks && w.seen.vals[id] == Entry(w.marks[id].at, true)
  }

  /** A mark that is out of the cache is out for a reason: it expired, or cap other ids pushed it out. */
  predicate Accounted(w: World, id: string, c: Config) {
    id in w.marks ==> id in w.seen.vals || w.now - w.marks[id].at > c.ttl || |w.marks[id].since| >= c.cap
  }

  ghost predicate Inv(w: World, c: Config) {
    && c.cap > 0 && w.seen.Valid() && |w.seen.keys| <= c.cap
    && InOrder(w.seen.keys, w.marks)
    && (forall id :: EntryInv(w, id) && Accounted(w, id, c))
  }

  lemma ForgetKeepsInv(w: World, id: string, c: Config)
    requires Inv(w, c)
    ensures Inv(Apply(w, Forgetting(id), c), c)
  {
    var n := Apply(w, Forgetting(id), c);
    OrderWithout(w.seen.keys, w.marks, id);
    WithoutFacts(w.seen.keys, id);
    OrderUnmarked(n.seen.keys, w.marks, id);
    forall other
      ensures EntryInv(n, other) && Accounted(n, other, c)
    {
      assert EntryInv(w, other) && Accounted(w, other, c);
    }
  }

  /** Time passes, and an entry that is past its time may be dropped. */
  lemma ExpireKeepsInv(w: World, id: string, at: real, c: Config)
    requires Inv(w, c) && at >= w.now
    ensures Inv(w.(seen := Got(w.seen, id, at, c.ttl).0, now := at), c)
  {
    var n := w.(seen := Got(w.seen, id, at, c.ttl).0, now := at);
    OrderWithout(w.seen.keys, w.marks, id);
    assert EntryInv(w, id);
    forall other
      ensures EntryInv(n, other) && Accounted(n, other, c)
    {
      assert EntryInv(w, other) && Accounted(w, other, c);
    }
  }

  /** The world after an id that the cache does not have is marked. */
  function Marked(w: World, id: string, c: Config): World
    requires w.seen.Valid() && c.cap > 0
  {
    World(Putted(w.seen, id, true, w.now, c.cap), MarkedAlso(w.marks, id, w.now), w.now)
  }

  /** Room is made at the front, so what is left keeps its order. */
  lemma RoomKeepsOrder(w: World, c: Config)
    requires Inv(w, c)
    ensures var kept := Trimmed(w.seen, c.cap - 1);
            kept.Valid() && InOrder(kept.keys, w.marks) && |kept.keys| < c.cap && forall k | k in kept.keys :: k in w.seen.vals
  {
    hide Trimmed, Accounted, EntryInv;
    TrimmedIsPart(w.seen, c.cap - 1);
    TrimmedKeepsNewest(w.seen, c.cap - 1);
    OrderSuffix(w.seen.keys, w.marks, |w.seen.keys| - |Trimmed(w.seen, c.cap - 1).keys|);
  }

  lemma MarkKeepsOrder(w: World, id: string, c: Config)
    requires Inv(w, c) && id !in w.seen.vals
    ensures var n := Marked(w, id, c); n.seen.Valid() && |n.seen.keys| <= c.cap && InOrder(n.seen.keys, n.marks)
  {
    hide Trimmed, Accounted, EntryInv, InOrder;
    var kept := Trimmed(w.seen, c.cap - 1);
    RoomKeepsOrder(w, c);
    OrderSnoc(kept.keys, w.marks, id, w.now);
  }

  lemma SuffixMember(keys: seq<string>, k: nat, i: nat)
    requires k <= |keys| && i < |keys|
    ensures i >= k ==> keys[i] in keys[k..]
  {
    if i >= k {
      assert keys[k..][i - k] == keys[i];
    }
  }

  /** An entry that makes room for another id has then been followed by at least cap distinct ids. */
  lemma PushedOut(w: World, id: string, other: string, c: Config)
    requires Inv(w, c) && id !in w.seen.vals
    requires other in w.seen.vals && other !in Trimmed(w.seen, c.cap - 1).vals
    ensures other in w.marks && |w.marks[other].since + {id}| >= c.cap
  {
    hide Trimmed, Accounted;
    TrimmedIsPart(w.seen, c.cap - 1);
    TrimmedKeepsNewest(w.seen, c.cap - 1);
    var kept, keys := Trimmed(w.seen, c.cap - 1).keys, w.seen.keys;
    assert other in keys;
    var i :| 0 <= i < |keys| && keys[i] == other;
    SuffixMember(keys, |keys| - |kept|, i);
    ManySince(keys, w.marks, i, id);
  }

  lemma MoreSince(marks: map<string, Mark>, id: string, at: real, other: string)
    requires other in marks && other != id
    ensures var n := MarkedAlso(marks, id, at)[other]; n.at == marks[other].at && |n.since| >= |marks[other].since|
  {
    SubsetSize(marks[other].since, marks[other].since + {id});
  }

  lemma MarkKeepsInv(w: World, id: string, c: Config)
    requires Inv(w, c) && id !in w.seen.vals
    ensures Inv(Marked(w, id, c), c)
  {
    hide Trimmed, InOrder;
    var n := Marked(w, id, c);
    MarkKeepsOrder(w, id, c);
    TrimmedIsPart(w.seen, c.cap - 1);
    forall other
      ensures EntryInv(n, other) && Accounted(n, other, c)
    {
      assert EntryInv(w, other) && Accounted(w, other, c);
      if other in w.marks && other != id {
        MoreSince(w.marks, id, w.now, other);
        if other in w.seen.vals && other !in Trimmed(w.seen, c.cap - 1).vals {
          PushedOut(w, id, other, c);
        }
      }
    }
  }

  lemma StepKeepsInv(w: World, step: Step, c: Config)
    requires Inv(w, c) && Enabled(w, step, c)
    ensures Inv(Apply(w, step, c), c)
  {
    match step
    case Forgetting(id) => ForgetKeepsInv(w, id, c);
    case Checking(id, at) =>
      ExpireKeepsInv(w, id, at, c);
      assert EntryInv(w, id) && EntryInv(w, "");
      var e := w.(seen := Got(w.seen, id, at, c.ttl).0, now := at);
      if id == "" {
        TimePasses(w, at, c);
      } else if Got(w.seen, id, at, c.ttl).1.None? {
        MarkKeepsInv(e, id, c);
        assert Apply(w, step, c) == Marked(e, id, c);
      } else {
        assert Apply(w, step, c) == e;
      }
  }

  lemma TimePasses(w: World, at: real, c: Config)
    requires Inv(w, c) && at >= w.now
    ensures Inv(w.(now := at), c)
  {
    forall id
      ensures EntryInv(w.(now := at), id) && Accounted(w.(now := at), id, c)
    {
      assert EntryInv(w, id) && Accounted(w, id, c);
    }
  }

  // ----- every run -----

  ghost predicate Possible(w: World, steps: seq<Step>, c: Config)
    decreases |steps|
  {
    steps == [] || (Enabled(w, steps[0], c) && Possible(Apply(w, steps[0], c), steps[1..], c))
  }

  ghost function After(w: World, steps: seq<Step>, c: Config): World
    requires Possible(w, steps, c)
    decreases |steps|
  {
    if steps == [] then w else After(Apply(w, steps[0], c), steps[1..], c)
  }

  function Start(now: real): World {
    World(Empty(), map[], now)
  }

  lemma {:induction false} RunKeepsInv(w: World, steps: seq<Step>, c: Config)
    requires Inv(w, c) && Possible(w, steps, c)
    ensures Inv(After(w, steps, c), c)
    decreases |steps|
  {
    if steps != [] {
      StepKeepsInv(w, steps[0], c);
      RunKeepsInv(Apply(w, steps[0], c), steps[1..], c);
    }
  }

  /** The id was marked within the time to live and not forgotten since. */
  predicate MarkedRecently(w: World, id: string, at: real, c: Config) {
    id in w.marks && at - w.marks[id].at <= c.ttl
  }

  /** Duplicate detection is exact: it answers yes only for an id marked within the time to live and
      not forgotten since, and for every such id after which fewer than cap distinct other ids were marked.
      The cache never exceeds its cap. */
  lemma DetectionIsExact(start: real, steps: seq<Step>, c: Config, id: string, at: real)
    requires c.cap > 0 && Possible(Start(start), steps, c) && at >= After(Start(start), steps, c).now && id != ""
    ensures var w := After(Start(start), steps, c);
            && w.seen.Valid() && |w.seen.keys| <= c.cap
            && var seen := SeenRecently(w.seen, id, at, c.ttl, c.cap).1;
            && (seen ==> MarkedRecently(w, id, at, c))
            && (MarkedRecently(w, id, at, c) && |w.marks[id].since| < c.cap ==> seen)
  {
    RunKeepsInv(Start(start), steps, c);
    assert Accounted(After(Start(start), steps, c), id, c) && EntryInv(After(Start(start), steps, c), id);
  }
}
