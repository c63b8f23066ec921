/** Rendering a turn's entries as records (src/wahabot/ai/turn_records.py). */
module TurnRecords {
  // Which image slots a turn hands out, and which serial, name and ordinal a record carries.

  import opened Optional
  import opened Text
  import opened Sequences
  import R = Records
  import RT = RecordRoundTrip
  import RR = RecordReading
  import F = SerialFile
  import J = JsonLine
  import S = Serials

  // ----- attachment slots -----

  /** What is attached to one entry: shown and omitted images, an album or not, a video. */
  datatype Media = Media(images: nat, omitted: nat, album: bool, video: bool)

  function Total(m: Media): nat {
    m.images + m.omitted
  }

  function Range(start: nat, count: nat): (r: seq<nat>)
    ensures |r| == count && forall i | 0 <= i < count :: r[i] == start + i
  {
    seq(count, i requires 0 <= i < count => start + i)
  }

  function ImageFlag(slot: nat): string {
    "image#" + Numeral(slot)
  }

  function AlbumFlag(start: nat, count: nat): string
    requires count > 0
  {
    if count == 1 then "album#" + Numeral(start) else "album#" + (Numeral(start) + ("-" + Numeral(start + count - 1)))
  }

  function SingleFlags(start: nat, count: nat): (fs: seq<string>)
    ensures |fs| == count && forall i | 0 <= i < count :: fs[i] == ImageFlag(start + i)
  {
    seq(count, i requires 0 <= i < count => ImageFlag(start + i))
  }

  /** An entry's image flags when `taken` images came before it in the turn. */
  function ImageFlags(m: Media, taken: nat): seq<string> {
    if !m.album then SingleFlags(taken + 1, Total(m))
    else if Total(m) > 0 then [AlbumFlag(taken + 1, Total(m))]
    else []
  }

  function MediaFlags(m: Media, images: nat, videos: nat): seq<string> {
    (if m.video then ["video#" + Numeral(videos + 1)] else []) + ImageFlags(m, images)
  }

  /** The counters one turn shares. */
  class Slots {
    var images: nat
    var videos: nat

    constructor ()
      ensures images == 0 && videos == 0
    {
      images, videos := 0, 0;
    }

    /** Reserves image slots and returns the first. */
    method TakeImages(count: nat) returns (start: nat)
      modifies this`images
      ensures start == old(images) + 1 && images == old(images) + count
    {
      start := images + 1;
      images := images + count;
    }

    method TakeVideo() returns (slot: nat)
      modifies this`videos
      ensures slot == videos == old(videos) + 1
    {
      videos := videos + 1;
      slot := videos;
    }
  }

  lemma OneMoreSingle(start: nat, count: nat)
    ensures SingleFlags(start, count + 1) == SingleFlags(start, count) + [ImageFlag(start + count)]
  {
  }

  /** One slot for each of `count` images. */
  method TakeSingles(count: nat, slots: Slots) returns (flags: seq<string>)
    modifies slots`images
    ensures flags == SingleFlags(old(slots.images) + 1, count)
    ensures slots.images == old(slots.images) + count
  {
    hide ImageFlag;
    flags := [];
    for i := 0 to count
      invariant slots.images == old(slots.images) + i
      invariant flags == SingleFlags(old(slots.images) + 1, i)
    {
      OneMoreSingle(old(slots.images) + 1, i);
      var slot := slots.TakeImages(1);
      flags := flags + [ImageFlag(slot)];
    }
  }

  lemma SinglesJoin(start: nat, a: nat, b: nat)
    ensures SingleFlags(start, a) + SingleFlags(start + a, b) == SingleFlags(start, a + b)
  {
    hide ImageFlag;
  }

  /** The flags of one entry's video and images. */
  method MediaParts(m: Media, slots: Slots) returns (flags: seq<string>)
    modifies slots
    ensures flags == MediaFlags(m, old(slots.images), old(slots.videos))
    ensures slots.images == old(slots.images) + Total(m)
    ensures slots.videos == old(slots.videos) + if m.video then 1 else 0
  {
    hide AlbumFlag, SingleFlags, Numeral;
    flags := [];
    if m.video {
      var slot := slots.TakeVideo();
      flags := ["video#" + Numeral(slot)];
    }
    if m.album {
      var total := m.images + m.omitted;
      if total > 0 {
        var start := slots.TakeImages(total);
        flags := flags + [AlbumFlag(start, total)];
      }
      return;
    }
    SinglesJoin(slots.images + 1, m.images, m.omitted);
    var shown := TakeSingles(m.images, slots);
    var omitted := TakeSingles(m.omitted, slots);
    assert flags + shown + omitted == flags + (shown + omitted);
    flags := flags + shown + omitted;
  }

  // ----- reading the slots back from the flags -----

  /** The image slots a flag names, read from its text alone. */
  function SlotsNamed(flag: string): seq<nat> {
    if "image#" <= flag then
      var digits := flag[6..];
      if DigitRun(digits) == |digits| then [Value(digits)] else []
    else if "album#" <= flag then RangeNamed(flag[6..])
    else []
  }

  /** A number, or two with a dash between them. */
  function RangeNamed(rest: string): seq<nat> {
    var d := DigitRun(rest);
    if d == |rest| then [Value(rest)]
    else if rest[d] == '-' && DigitRun(rest[d + 1..]) == |rest| - d - 1 && Value(rest[d + 1..]) >= Value(rest[..d])
    then Range(Value(rest[..d]), Value(rest[d + 1..]) - Value(rest[..d]) + 1)
    else []
  }

  function AllSlots(flags: seq<string>): seq<nat> {
    if flags == [] then [] else AllSlots(flags[..|flags| - 1]) + SlotsNamed(flags[|flags| - 1])
  }

  lemma {:induction false} AllSlotsConcat(a: seq<string>, b: seq<string>)
    ensures AllSlots(a + b) == AllSlots(a) + AllSlots(b)
  {
    hide SlotsNamed;
    if b == [] {
      assert a + b == a;
    } else {
      var init, last := b[..|b| - 1], b[|b| - 1];
      AllSlotsConcat(a, init);
      assert a + b == (a + init) + [last];
      assert ((a + init) + [last])[..|a + init|] == a + init;
    }
  }

  lemma NumeralDigits(n: nat)
    ensures DigitRun(Numeral(n)) == |Numeral(n)| && Value(Numeral(n)) == n
  {
    DigitRunAt(Numeral(n), "");
    assert Numeral(n) + "" == Numeral(n);
    ValueOfNumeral(n);
  }

  lemma ImageFlagNames(slot: nat)
    ensures SlotsNamed(ImageFlag(slot)) == [slot]
  {
    NumeralDigits(slot);
    assert ImageFlag(slot)[6..] == Numeral(slot);
  }

  lemma AlbumIsNotImage(rest: string)
    ensures !("image#" <= "album#" + rest) && "album#" <= "album#" + rest && ("album#" + rest)[6..] == rest
  {
    assert ("album#" + rest)[0] == 'a';
  }

  lemma RangeText(a: string, b: string)
    ensures (a + ("-" + b))[..|a|] == a && (a + ("-" + b))[|a|] == '-' && (a + ("-" + b))[|a| + 1..] == b
  {
  }

  lemma RangeFlagNames(a: string, b: string)
    requires DigitRun(a) == |a| && DigitRun(b) == |b| && Value(a) <= Value(b)
    ensures SlotsNamed("album#" + (a + ("-" + b))) == Range(Value(a), Value(b) - Value(a) + 1)
  {
    hide Value, DigitRun, SlotsNamed, RangeNamed;
    AlbumIsNotImage(a + ("-" + b));
    AlbumNames("album#" + (a + ("-" + b)), a + ("-" + b));
    RangeIsNamed(a, b);
  }

  lemma RangeIsNamed(a: string, b: string)
    requires DigitRun(a) == |a| && DigitRun(b) == |b| && Value(a) <= Value(b)
    ensures RangeNamed(a + ("-" + b)) == Range(Value(a), Value(b) - Value(a) + 1)
  {
    hide Value, DigitRun;
    RangeText(a, b);
    DigitRunAt(a, "-" + b);
  }

  lemma AlbumNames(flag: string, rest: string)
    requires !("image#" <= flag) && "album#" <= flag && flag[6..] == rest
    ensures SlotsNamed(flag) == RangeNamed(rest)
  {
    hide RangeNamed;
  }

  lemma AlbumFlagNames(start: nat, count: nat)
    requires count > 0
    ensures SlotsNamed(AlbumFlag(start, count)) == Range(start, count)
  {
    hide Numeral, Value, DigitRun;
    NumeralDigits(start);
    NumeralDigits(start + count - 1);
    if count == 1 {
      AlbumIsNotImage(Numeral(start));
    } else {
      RangeFlagNames(Numeral(start), Numeral(start + count - 1));
    }
  }

  lemma {:induction false} SingleFlagsName(start: nat, count: nat)
    ensures AllSlots(SingleFlags(start, count)) == Range(start, count)
  {
    hide SlotsNamed, ImageFlag;
    if count > 0 {
      SingleFlagsName(start, count - 1);
      OneMoreSingle(start, count - 1);
      AllSlotsConcat(SingleFlags(start, count - 1), [ImageFlag(start + count - 1)]);
      ImageFlagNames(start + count - 1);
      SlotsOfOne(ImageFlag(start + count - 1));
    }
  }

  lemma SlotsOfOne(flag: string)
    ensures AllSlots([flag]) == SlotsNamed(flag)
  {
    hide SlotsNamed;
    assert [flag][..0] == [];
  }

  lemma VideoNamesNoImage(slot: nat)
    ensures SlotsNamed("video#" + Numeral(slot)) == []
  {
    hide Numeral;
    assert ("video#" + Numeral(slot))[0] == 'v';
  }

  /** An entry's flags name exactly the next image slots, however they are grouped. */
  lemma MediaFlagsName(m: Media, images: nat, videos: nat)
    ensures AllSlots(MediaFlags(m, images, videos)) == Range(images + 1, Total(m))
  {
    hide SlotsNamed, ImageFlag, AlbumFlag, Numeral;
    var video := if m.video then ["video#" + Numeral(videos + 1)] else [];
    AllSlotsConcat(video, ImageFlags(m, images));
    VideoNamesNoImage(videos + 1);
    SlotsOfOne("video#" + Numeral(videos + 1));
    if !m.album {
      SingleFlagsName(images + 1, Total(m));
    } else if Total(m) > 0 {
      AlbumFlagNames(images + 1, Total(m));
      SlotsOfOne(AlbumFlag(images + 1, Total(m)));
    }
  }

  // ----- who wrote a message, and its serial -----

  /** An event as identity resolution sees it: its message, its sender and the names it comes with. */
  datatype Event = Event(messageId: string, sender: string, eventName: string, rosterName: string, operator: bool)

  datatype Identity = Identity(name: string, ordinal: Option<nat>, serial: nat)

  function StoredEntry(r: S.Registry, serial: nat): Option<J.Entry> {
    if serial > 0 && serial in S.Load(r).view.entries then Some(S.Load(r).view.entries[serial]) else None
  }

  function StreamName(e: Event, stored: Option<J.Entry>): string {
    if e.eventName != "" then e.eventName
    else if e.rosterName != "" then e.rosterName
    else if stored.Some? then stored.value.name
    else ""
  }

  /** No ordinal for the operator or a known name; otherwise the stored one, or one from the registry. */
  function StreamOrdinal(r: S.Registry, e: Event, name: string, stored: Option<J.Entry>): (S.Registry, Option<nat>) {
    if e.operator || name != "" then (r, None)
    else if stored.Some? && stored.value.ordinal > 0 then (r, Some(stored.value.ordinal))
    else
      var (n, ordinal) := S.OrdinalFor(r, e.sender);
      (n, Some(ordinal))
  }

  const NOBODY := Identity("", None, 0)

  /** A load that raises ends the rendering; there is no identity then. */
  function Resolve(r: S.Registry, e: Event): (S.Registry, Identity) {
    var l := S.Load(r);
    if !l.loaded then (l, NOBODY)
    else
      var found := S.SerialFor(l, e.messageId);
      var stored := StoredEntry(l, found);
      var name := StreamName(e, stored);
      var (n, ordinal) := StreamOrdinal(l, e, name, stored);
      if found > 0 then (n, Identity(name, ordinal, found))
      else
        var (m, serial) := S.Next(n, e.messageId, e.sender, name, if ordinal.Some? then ordinal.value else 0);
        (m, Identity(name, ordinal, serial))
  }

  lemma LoadedStays(r: S.Registry)
    requires !S.Raises(r)
    ensures S.Load(r).loaded && S.Load(S.Load(r)) == S.Load(r) && !S.Raises(S.Load(r))
  {
    hide S.FirstForeign, F.AllLines;
  }

  /** A load that raised raises again. */
  lemma RaisesAgain(r: S.Registry)
    requires S.Raises(r)
    ensures S.Raises(S.Load(r))
  {
    hide S.FirstForeign, F.AllLines;
  }

  lemma SerialForLoaded(r: S.Registry, messageId: string)
    requires !S.Raises(r)
    ensures S.SerialFor(S.Load(r), messageId) == S.SerialFor(r, messageId)
  {
    hide S.Load, S.MessageKey;
    LoadedStays(r);
  }

  /** None where the registry cannot be loaded. */
  method ResolveIdentity(e: Event, registry: S.SerialRegistry) returns (identity: Option<Identity>)
    modifies registry
    ensures var (n, id) := Resolve(old(registry.State()), e);
            registry.State() == n && identity == if S.Raises(old(registry.State())) then None else Some(id)
  {
    hide S.Next, S.OrdinalFor, S.SerialFor, S.Load;
    ghost var was := registry.State();
    var known := registry.SerialOf(e.messageId);
    if known.None? {
      return None;
    }
    LoadedStays(was);
    SerialForLoaded(was, e.messageId);
    var found := known.value;
    var stored := if found > 0 && found in registry.entries then Some(registry.entries[found]) else None;
    var name := StreamName(e, stored);
    var ordinal := None;
    if !(e.operator || name != "") {
      if stored.Some? && stored.value.ordinal > 0 {
        ordinal := Some(stored.value.ordinal);
      } else {
        var n := registry.OrdinalOf(e.sender);
        ordinal := n;
      }
    }
    StreamOrdinalFrame(S.Load(was), e, name, stored);
    var serial := found;
    if found == 0 {
      var given := registry.NextSerial(e.messageId, e.sender, name, if ordinal.Some? then ordinal.value else 0);
      serial := given.value;
    }
    identity := Some(Identity(name, ordinal, serial));
  }

  // ----- a message keeps its identity -----

  /** Asking for an ordinal changes the ordinals only, and asking again changes nothing. */
  lemma OrdinalForFrame(l: S.Registry, jid: string)
    requires l.loaded
    ensures var (n, ordinal) := S.OrdinalFor(l, jid);
            && n.loaded && n.file == l.file
            && n.view.entries == l.view.entries && n.view.byMessage == l.view.byMessage && n.view.byHash == l.view.byHash
            && n.view.lastSerial == l.view.lastSerial
            && S.OrdinalFor(n, jid) == (n, ordinal)
  {
    hide S.ReplayFrom, S.FirstForeign, F.AllLines;
  }

  lemma StreamOrdinalFrame(l: S.Registry, e: Event, name: string, stored: Option<J.Entry>)
    requires l.loaded
    ensures var (n, ordinal) := StreamOrdinal(l, e, name, stored);
            && n.loaded && n.file == l.file
            && n.view.entries == l.view.entries && n.view.byMessage == l.view.byMessage && n.view.byHash == l.view.byHash
            && n.view.lastSerial == l.view.lastSerial && !S.Raises(n)
            && StreamOrdinal(n, e, name, stored) == (n, ordinal)
  {
    hide S.OrdinalFor;
    OrdinalForFrame(l, e.sender);
  }

  lemma {:induction false} PositiveSerials(lines: seq<J.Line>)
    requires S.Ordered(lines)
    ensures forall m | m in S.Replay(lines).byMessage :: S.Replay(lines).byMessage[m] > 0
  {
    if lines != [] {
      var init, last := lines[..|lines| - 1], lines[|lines| - 1];
      PositiveSerials(init);
      assert S.Replay(lines) == S.FoldLine(S.Replay(init), last);
    }
  }

  /** A message without a serial is unknown, so the registry gives it a new one. */
  lemma NoSerialMeansNew(r: S.Registry, messageId: string)
    requires S.Sound(r) && S.SerialFor(S.Load(r), messageId) == 0
    ensures messageId !in S.Load(r).view.byMessage
  {
    hide S.ReplayFrom, S.MessageKey, S.FirstForeign, F.AllLines;
    S.SoundLoads(r);
    LoadedStays(r);
    PositiveSerials(F.AllLines(r.file));
  }

  /** Every record of a turn gets a serial. */
  lemma SerialIsPositive(r: S.Registry, e: Event)
    requires S.Sound(r)
    ensures Resolve(r, e).1.serial > 0
  {
    hide S.SerialFor, S.OrdinalFor, S.Load, S.Sound, StreamOrdinal, S.Next, S.Known, S.NewEntry;
    S.SoundLoads(r);
    LoadedStays(r);
    var l := S.Load(r);
    var found := S.SerialFor(l, e.messageId);
    if found == 0 {
      NoSerialMeansNew(r, e.messageId);
      var stored := StoredEntry(l, found);
      StreamOrdinalFrame(l, e, StreamName(e, stored), stored);
      var n := StreamOrdinal(l, e, StreamName(e, stored), stored);
      NewSerial(n.0, e, StreamName(e, stored), if n.1.Some? then n.1.value else 0);
    }
  }

  /** What a registry gives a message it does not know. */
  lemma NewSerial(n: S.Registry, e: Event, name: string, ordinal: nat)
    requires n.loaded && e.messageId !in n.view.byMessage
    ensures var (m, serial) := S.Next(n, e.messageId, e.sender, name, ordinal);
            && m.loaded && serial == n.view.lastSerial + 1 > 0
            && S.SerialFor(m, e.messageId) == serial
            && serial in m.view.entries && m.view.entries[serial] == J.Entry(serial, e.messageId, e.sender, name, ordinal)
  {
    hide S.ReplayFrom, S.MessageKey, F.Appended, S.FirstForeign, F.AllLines;
  }

  lemma FoundMeansLoaded(r: S.Registry, messageId: string)
    requires S.SerialFor(S.Load(r), messageId) > 0
    ensures !S.Raises(r)
  {
    hide S.Load, S.MessageKey;
    if S.Raises(r) {
      RaisesAgain(r);
    }
  }

  /** With a serial on record, resolving again finds the same entry and so the same identity. */
  lemma KnownIsStable(r: S.Registry, e: Event)
    requires S.SerialFor(S.Load(r), e.messageId) > 0
    ensures Resolve(Resolve(r, e).0, e) == Resolve(r, e)
  {
    hide S.OrdinalFor, S.ReplayFrom, StreamOrdinal, S.MessageKey, S.FirstForeign, F.AllLines;
    FoundMeansLoaded(r, e.messageId);
    LoadedStays(r);
    var l := S.Load(r);
    var found := S.SerialFor(l, e.messageId);
    var stored := StoredEntry(l, found);
    StreamOrdinalFrame(l, e, StreamName(e, stored), stored);
  }

  /** A registry never hands out the ordinal 0 to a sender it can name. */
  lemma OrdinalIsPositive(r: S.Registry, jid: string)
    requires S.Sound(r)
    ensures S.OrdinalFor(S.Load(r), jid).1 == 0 <==> jid == ""
  {
    hide S.ReplayFrom, S.FirstForeign, F.AllLines;
    S.SoundLoads(r);
  }

  lemma NoSenderNoOrdinal(m: S.Registry)
    ensures S.OrdinalFor(m, "") == (m, 0)
  {
  }

  lemma UnknownResolves(r: S.Registry, e: Event)
    requires !S.Raises(r) && S.SerialFor(S.Load(r), e.messageId) == 0
    ensures var name := StreamName(e, None);
            var (n, ordinal) := StreamOrdinal(S.Load(r), e, name, None);
            var (m, serial) := S.Next(n, e.messageId, e.sender, name, if ordinal.Some? then ordinal.value else 0);
            Resolve(r, e) == (m, Identity(name, ordinal, serial))
  {
    hide S.Load, S.Next, S.SerialFor, S.OrdinalFor;
  }

  lemma KnownResolves(m: S.Registry, e: Event, stored: J.Entry)
    requires m.loaded && S.SerialFor(m, e.messageId) == stored.serial > 0
    requires stored.serial in m.view.entries && m.view.entries[stored.serial] == stored
    ensures var name := StreamName(e, Some(stored));
            var (n, ordinal) := StreamOrdinal(m, e, name, Some(stored));
            Resolve(m, e) == (n, Identity(name, ordinal, stored.serial))
  {
    hide S.Next, S.SerialFor, S.OrdinalFor, S.FirstForeign, F.AllLines;
  }

  /** A message that gets its serial now is found with it, its name and its ordinal. */
  lemma NewIsStable(r: S.Registry, e: Event)
    requires S.Sound(r) && S.SerialFor(S.Load(r), e.messageId) == 0
    ensures Resolve(Resolve(r, e).0, e) == Resolve(r, e)
  {
    hide Resolve, S.ReplayFrom, S.MessageKey, S.Sound, S.Next, S.SerialFor, S.OrdinalFor, S.Load;
    S.SoundLoads(r);
    LoadedStays(r);
    NoSerialMeansNew(r, e.messageId);
    UnknownResolves(r, e);
    var l, name := S.Load(r), StreamName(e, None);
    StreamOrdinalFrame(l, e, name, None);
    var (n, ordinal) := StreamOrdinal(l, e, name, None);
    var number := if ordinal.Some? then ordinal.value else 0;
    NewSerial(n, e, name, number);
    var m := S.Next(n, e.messageId, e.sender, name, number);
    KnownResolves(m.0, e, J.Entry(m.1, e.messageId, e.sender, name, number));
    OrdinalIsPositive(r, e.sender);
    NoSenderNoOrdinal(m.0);
  }

  lemma SoundInv(r: S.Registry)
    requires S.Sound(r)
    ensures S.Inv(r)
  {
  }

  /** Rendering a message again shows the same name, ordinal and serial, and changes nothing more. */
  lemma ResolveIsStable(r: S.Registry, e: Event)
    requires S.Sound(r)
    ensures Resolve(Resolve(r, e).0, e) == Resolve(r, e)
  {
    hide Resolve, S.Sound, S.SerialFor, S.Load;
    if S.SerialFor(S.Load(r), e.messageId) > 0 {
      KnownIsStable(r, e);
    } else {
      NewIsStable(r, e);
    }
  }

  lemma OrdinalIsWritten(r: S.Registry, e: Event)
    requires S.Sound(r)
    ensures var (n, ordinal) := StreamOrdinal(S.Load(r), e, StreamName(e, None), None);
            && S.Sound(n)
            && S.OrdinalFits(S.Load(n).view, e.sender, if ordinal.Some? then ordinal.value else 0)
  {
    hide S.ReplayFrom, S.OrdinalFor, S.Mirrors, S.OrdinalFits, S.FirstForeign, F.AllLines;
    S.LoadMirrors(r);
    S.SoundLoads(r);
    S.OrdinalForKeepsInv(S.Load(r), e.sender);
    ZeroFits(S.Load(r).view, e.sender);
  }

  lemma ZeroFits(v: S.View, jid: string)
    ensures S.OrdinalFits(v, jid, 0)
  {
  }

  /** What a restart reads back of a registry whose memory and file agree. */
  lemma RestartKeepsLookups(m: S.Registry, messageId: string)
    requires S.Inv(m) && m.loaded
    ensures var again := S.Load(S.Reset(m));
            && again.loaded && again.view.entries == m.view.entries
            && S.SerialFor(again, messageId) == S.SerialFor(m, messageId)
  {
    hide S.ReplayFrom, S.MessageKey, F.AllLines, S.FirstForeign;
    S.AllBeforeForeign(F.AllLines(m.file));
  }

  /** A message keeps its serial, its name and its member ordinal over a restart, whatever the
      ordinals table forgets, when its texts have no stray line end in them. */
  lemma IdentitySurvivesRestart(r: S.Registry, e: Event)
    requires S.Sound(r) && S.SerialFor(S.Load(r), e.messageId) == 0
    requires J.LineFree(e.messageId) && J.LineFree(e.sender) && J.LineFree(StreamName(e, None))
    ensures Resolve(S.Reset(Resolve(r, e).0), e).1 == Resolve(r, e).1
  {
    hide Resolve, S.ReplayFrom, S.MessageKey, S.Sound, S.Inv, S.Next, S.SerialFor, S.OrdinalFor, S.Load, S.Reset, S.OrdinalFits, J.LineFree;
    S.SoundLoads(r);
    LoadedStays(r);
    NoSerialMeansNew(r, e.messageId);
    UnknownResolves(r, e);
    var l, name := S.Load(r), StreamName(e, None);
    StreamOrdinalFrame(l, e, name, None);
    OrdinalIsWritten(r, e);
    var (n, ordinal) := StreamOrdinal(l, e, name, None);
    var number := if ordinal.Some? then ordinal.value else 0;
    NewSerial(n, e, name, number);
    S.NextKeepsSound(n, e.messageId, e.sender, name, number);
    var m := S.Next(n, e.messageId, e.sender, name, number);
    SoundInv(m.0);
    RestartKeepsLookups(m.0, e.messageId);
    var again := S.Load(S.Reset(m.0));
    KnownResolves(again, e, J.Entry(m.1, e.messageId, e.sender, name, number));
    LoadedResolves(S.Reset(m.0), e);
    OrdinalIsPositive(r, e.sender);
    NoSenderNoOrdinal(again);
  }

  lemma LoadedResolves(r: S.Registry, e: Event)
    requires !S.Raises(r)
    ensures Resolve(S.Load(r), e) == Resolve(r, e)
  {
    hide S.Load, S.SerialFor, S.Next, S.OrdinalFor;
    LoadedStays(r);
  }

  // ----- a whole turn -----

  /** One entry of a turn: the event, its labels, and what the other renderers made of it. */
  datatype Entry = Entry(
    event: Event, timeLabel: string, kind: string, media: Media,
    flags: seq<string>, body: string, payloads: seq<string>)

  /** A turn being rendered: the registry, the records so far and the attachment counters. */
  datatype Turn = Turn(registry: S.Registry, records: seq<R.Fields>, images: nat, videos: nat)

  function Speaker(e: Event, id: Identity): string {
    if e.operator then "<operator>"
    else if id.name != "" then id.name
    else if id.ordinal.Some? then "<member-" + Numeral(id.ordinal.value) + ">"
    else "<member-?>"
  }

  function RecordOf(e: Entry, id: Identity, images: nat, videos: nat): R.Fields {
    R.Fields(e.timeLabel, Speaker(e.event, id), id.serial, e.kind, MediaFlags(e.media, images, videos) + e.flags, e.body, e.payloads)
  }

  function AddEntry(t: Turn, e: Entry): Turn {
    var (n, id) := Resolve(t.registry, e.event);
    Turn(n, t.records + [RecordOf(e, id, t.images, t.videos)], t.images + Total(e.media), t.videos + if e.media.video then 1 else 0)
  }

  function Rendered(r: S.Registry, es: seq<Entry>): Turn {
    if es == [] then Turn(r, [], 0, 0) else AddEntry(Rendered(r, es[..|es| - 1]), es[|es| - 1])
  }

  lemma StaysLoaded(r: S.Registry, e: Event)
    requires !S.Raises(r)
    ensures !S.Raises(Resolve(r, e).0)
  {
    hide S.OrdinalFor, S.SerialFor, S.MessageKey, S.FirstForeign, F.AllLines, StreamOrdinal, F.Appended;
    LoadedStays(r);
    var l := S.Load(r);
    var stored := StoredEntry(l, S.SerialFor(l, e.messageId));
    StreamOrdinalFrame(l, e, StreamName(e, stored), stored);
  }

  lemma {:induction false} RenderingStaysLoaded(r: S.Registry, es: seq<Entry>)
    requires !S.Raises(r)
    ensures !S.Raises(Rendered(r, es).registry)
  {
    hide Resolve, S.Raises;
    if es != [] {
      RenderingStaysLoaded(r, es[..|es| - 1]);
      StaysLoaded(Rendered(r, es[..|es| - 1]).registry, es[|es| - 1].event);
    }
  }

  /** The turn's text and its serials, in order; not ok where the registry cannot be loaded, which only
      the first entry can find out. */
  method RenderEntries(es: seq<Entry>, registry: S.SerialRegistry) returns (ok: bool, text: string, serials: seq<nat>)
    modifies registry
    ensures ok <==> es == [] || !S.Raises(old(registry.State()))
    ensures !ok ==> registry.State() == S.Load(old(registry.State()))
    ensures ok ==> var t := Rendered(old(registry.State()), es);
            registry.State() == t.registry && text == R.RenderTurn(t.records) && serials == RT.SerialList(t.records)
  {
    hide Resolve, R.FormatRecord, MediaFlags, Speaker, S.Raises, S.Load;
    var slots := new Slots();
    var lines: seq<string> := [];
    serials := [];
    ghost var was := registry.State();
    for i := 0 to |es|
      invariant var t := Rendered(was, es[..i]);
                && registry.State() == t.registry && slots.images == t.images && slots.videos == t.videos
                && lines == R.Printed(t.records) && serials == RT.SerialList(t.records)
      invariant i > 0 ==> !S.Raises(was)
    {
      assert es[..i + 1][..i] == es[..i];
      ghost var t := Rendered(was, es[..i]);
      var e := es[i];
      if !S.Raises(was) {
        RenderingStaysLoaded(was, es[..i]);
      }
      var identity := ResolveIdentity(e.event, registry);
      if identity.None? {
        NothingRendered(was, es[i], registry.State());
        return false, "", [];
      }
      var id := identity.value;
      var flags := MediaParts(e.media, slots);
      var record := R.Fields(e.timeLabel, Speaker(e.event, id), id.serial, e.kind, flags + e.flags, e.body, e.payloads);
      assert record == RecordOf(e, id, t.images, t.videos);
      assert R.Printed(t.records + [record]) == R.Printed(t.records) + [R.FormatRecord(record)];
      lines := lines + [R.FormatRecord(record)];
      serials := serials + [id.serial];
    }
    assert es[..|es|] == es;
    ok, text := true, Join(lines, "\n");
  }

  lemma NothingRendered(r: S.Registry, e: Entry, n: S.Registry)
    requires S.Raises(r) && n == Resolve(r, e.event).0
    ensures n == S.Load(r)
  {
    hide S.Load;
  }

  function ImageTotal(es: seq<Entry>): nat {
    if es == [] then 0 else ImageTotal(es[..|es| - 1]) + Total(es[|es| - 1].media)
  }

  function TurnFlags(records: seq<R.Fields>): seq<string> {
    if records == [] then [] else TurnFlags(records[..|records| - 1]) + records[|records| - 1].flags
  }

  lemma RangeSplit(a: nat, b: nat)
    ensures Range(1, a) + Range(a + 1, b) == Range(1, a + b)
  {
  }

  lemma TurnFlagsSnoc(records: seq<R.Fields>, r: R.Fields)
    ensures TurnFlags(records + [r]) == TurnFlags(records) + r.flags
  {
    assert (records + [r])[..|records|] == records;
  }

  /** The image slots a turn's flags name, albums and omitted images included, are 1, 2, 3 and so on in
      the order of arrival, each once; the other flags of a record name none. */
  lemma {:induction false} SlotsAreContiguous(r: S.Registry, es: seq<Entry>)
    requires forall i | 0 <= i < |es| :: AllSlots(es[i].flags) == []
    ensures Rendered(r, es).images == ImageTotal(es)
    ensures AllSlots(TurnFlags(Rendered(r, es).records)) == Range(1, ImageTotal(es))
  {
    hide Resolve, MediaFlags, AllSlots, Range, Speaker;
    if es == [] {
      NoSlots();
    } else {
      var init, last := es[..|es| - 1], es[|es| - 1];
      SlotsAreContiguous(r, init);
      var t := Rendered(r, init);
      var record := Rendered(r, es).records[|t.records|];
      TurnFlagsSnoc(t.records, record);
      AllSlotsConcat(TurnFlags(t.records), record.flags);
      AllSlotsConcat(MediaFlags(last.media, t.images, t.videos), last.flags);
      MediaFlagsName(last.media, t.images, t.videos);
      RangeSplit(t.images, Total(last.media));
      assert Range(t.images + 1, Total(last.media)) + [] == Range(t.images + 1, Total(last.media));
    }
  }

  lemma NoSlots()
    ensures AllSlots(TurnFlags([])) == [] == Range(1, 0)
  {
  }

  /** What the round trip and the registry's file ask of an entry. */
  ghost predicate Wellbehaved(e: Entry) {
    BreakFree(e.timeLabel) && IsWord(e.kind) && EventLineFree(e.event)
  }

  predicate EventLineFree(e: Event) {
    J.LineFree(e.messageId) && J.LineFree(e.sender) && J.LineFree(e.eventName) && J.LineFree(e.rosterName)
  }

  lemma KnownKeepsSound(r: S.Registry, e: Event)
    requires S.Sound(r) && S.SerialFor(S.Load(r), e.messageId) > 0
    ensures S.Sound(Resolve(r, e).0)
  {
    hide S.ReplayFrom, S.OrdinalFor, S.Mirrors, S.SerialFor, S.OrdinalFits, S.FirstForeign, F.AllLines;
    S.LoadMirrors(r);
    S.SoundLoads(r);
    S.OrdinalForKeepsInv(S.Load(r), e.sender);
  }

  lemma NewKeepsSound(r: S.Registry, e: Event)
    requires S.Sound(r) && S.SerialFor(S.Load(r), e.messageId) == 0 && EventLineFree(e)
    ensures S.Sound(Resolve(r, e).0)
  {
    hide Resolve, S.Sound, S.Next, S.SerialFor, S.OrdinalFor, S.Load, S.OrdinalFits, J.LineFree;
    S.SoundLoads(r);
    UnknownResolves(r, e);
    OrdinalIsWritten(r, e);
    NothingIsLineFree();
    var name := StreamName(e, None);
    var (n, ordinal) := StreamOrdinal(S.Load(r), e, name, None);
    S.NextKeepsSound(n, e.messageId, e.sender, name, if ordinal.Some? then ordinal.value else 0);
  }

  lemma NothingIsLineFree()
    ensures J.LineFree("")
  {
  }

  /** Rendering a turn keeps the registry's file sound and gives every record a serial. */
  lemma {:induction false} RecordsAreRenderable(r: S.Registry, es: seq<Entry>)
    requires S.Sound(r)
    requires forall i | 0 <= i < |es| :: Wellbehaved(es[i])
    ensures S.Sound(Rendered(r, es).registry)
    ensures forall i | 0 <= i < |Rendered(r, es).records| :: RT.Renderable(Rendered(r, es).records[i])
    ensures |Rendered(r, es).records| == |es|
  {
    hide Resolve, MediaFlags, S.Sound, S.SerialFor, S.Load, Speaker, IsWord, BreakFree, EventLineFree;
    if es != [] {
      var init, last := es[..|es| - 1], es[|es| - 1];
      RecordsAreRenderable(r, init);
      var n := Rendered(r, init).registry;
      SerialIsPositive(n, last.event);
      if S.SerialFor(S.Load(n), last.event.messageId) > 0 {
        KnownKeepsSound(n, last.event);
      } else {
        NewKeepsSound(n, last.event);
      }
    }
  }

  /** The serials a turn reports are the ones a reader finds in its text, in order, when each of its
      records is faithful: the body's only line breaks are line feeds and no forged head follows. */
  lemma SerialsMatchText(r: S.Registry, es: seq<Entry>)
    requires S.Sound(r) && forall i | 0 <= i < |es| :: Wellbehaved(es[i])
    requires forall i | 0 <= i < |Rendered(r, es).records| :: RT.Faithful(Rendered(r, es).records[i])
    ensures R.SerialsOf(Lines(R.RenderTurn(Rendered(r, es).records))) == RT.SerialList(Rendered(r, es).records)
  {
    hide Rendered, S.Sound, R.RenderTurn, RT.Renderable, RT.Faithful, R.SerialsOf;
    RecordsAreRenderable(r, es);
    RT.TurnSerials(Rendered(r, es).records);
  }

  // ----- what a reader finds in the turn's text -----

  lemma WordConcat(a: string, b: string)
    requires IsWord(a) && forall i | 0 <= i < |b| :: !IsSpace(b[i])
    ensures IsWord(a + b)
  {
    hide IsSpace;
  }

  lemma NumeralHasNoSpace(n: nat)
    ensures forall i | 0 <= i < |Numeral(n)| :: !IsSpace(Numeral(n)[i])
  {
    assert forall c | IsDigit(c) :: !IsSpace(c);
  }

  lemma FixedWords()
    ensures IsWord("image#") && IsWord("album#") && IsWord("video#") && IsWord("-")
  {
  }

  lemma FlagsAreWords(start: nat, count: nat)
    ensures IsWord(ImageFlag(start)) && IsWord("video#" + Numeral(start)) && (count > 0 ==> IsWord(AlbumFlag(start, count)))
  {
    hide Numeral, IsSpace, IsWord;
    FixedWords();
    NumeralHasNoSpace(start);
    WordConcat("image#", Numeral(start));
    WordConcat("album#", Numeral(start));
    WordConcat("video#", Numeral(start));
    if count > 1 {
      NumeralHasNoSpace(start + count - 1);
      WordConcat("-", Numeral(start + count - 1));
      AlbumWord(Numeral(start), Numeral(start + count - 1));
    }
  }

  lemma AlbumWord(a: string, b: string)
    requires (forall i | 0 <= i < |a| :: !IsSpace(a[i])) && forall i | 0 <= i < |b| :: !IsSpace(b[i])
    ensures IsWord("album#" + (a + ("-" + b)))
  {
    hide IsSpace;
    FixedWords();
    var rest := a + ("-" + b);
    forall i | 0 <= i < |rest|
      ensures !IsSpace(rest[i])
    {
      assert rest[i] == if i < |a| then a[i] else if i == |a| then "-"[0] else b[i - |a| - 1];
    }
    WordConcat("album#", rest);
  }

  /** The flags of an entry's attachments are single words. */
  lemma MediaFlagsAreWords(m: Media, images: nat, videos: nat)
    ensures FlattenWords(MediaFlags(m, images, videos)) == MediaFlags(m, images, videos)
  {
    hide ImageFlag, AlbumFlag, Numeral, IsWord, FlattenWords;
    var flags := MediaFlags(m, images, videos);
    FlagsAreWords(videos + 1, 0);
    if m.album {
      FlagsAreWords(images + 1, Total(m));
    }
    forall f | f in flags
      ensures IsWord(f)
    {
      if !m.album && f in SingleFlags(images + 1, Total(m)) {
        var singles := SingleFlags(images + 1, Total(m));
        var i :| 0 <= i < Total(m) && f == singles[i];
        FlagsAreWords(images + 1 + i, 0);
      }
    }
    FlattenWordsOfWords(flags);
  }

  lemma {:induction false} SlotsOfFlagWords(r: S.Registry, es: seq<Entry>)
    requires forall i | 0 <= i < |es| :: AllSlots(FlattenWords(es[i].flags)) == []
    ensures Rendered(r, es).images == ImageTotal(es)
    ensures AllSlots(RR.FlagWordsOf(Rendered(r, es).records)) == Range(1, ImageTotal(es))
  {
    hide Resolve, MediaFlags, AllSlots, Range, Speaker, FlattenWords;
    if es == [] {
      NoSlots();
      assert RR.FlagWordsOf([]) == TurnFlags([]);
    } else {
      var init, last := es[..|es| - 1], es[|es| - 1];
      SlotsOfFlagWords(r, init);
      var t := Rendered(r, init);
      var record := Rendered(r, es).records[|t.records|];
      var media := MediaFlags(last.media, t.images, t.videos);
      assert (t.records + [record])[..|t.records|] == t.records;
      FlattenWordsAppend(media, last.flags);
      MediaFlagsAreWords(last.media, t.images, t.videos);
      AllSlotsConcat(RR.FlagWordsOf(t.records), media + FlattenWords(last.flags));
      AllSlotsConcat(media, FlattenWords(last.flags));
      MediaFlagsName(last.media, t.images, t.videos);
      RangeSplit(t.images, Total(last.media));
      assert Range(t.images + 1, Total(last.media)) + [] == Range(t.images + 1, Total(last.media));
    }
  }

  /** The image slots that a reader finds in the text of a turn of plain records are 1, 2, 3 and so on, each
      once, in order of arrival. */
  lemma SlotsAreShown(r: S.Registry, es: seq<Entry>)
    requires forall i | 0 <= i < |es| :: AllSlots(FlattenWords(es[i].flags)) == []
    requires forall i | 0 <= i < |Rendered(r, es).records| :: RR.Plain(Rendered(r, es).records[i])
    ensures AllSlots(RR.FlagsIn(R.RecordBlocks(R.RenderTurn(Rendered(r, es).records)))) == Range(1, ImageTotal(es))
  {
    hide Rendered, RR.Plain, RR.FlagsIn, R.RecordBlocks, R.RenderTurn, AllSlots, FlattenWords;
    RR.FlagsAreShown(Rendered(r, es).records);
    SlotsOfFlagWords(r, es);
  }

  function VideoTotal(es: seq<Entry>): nat {
    if es == [] then 0 else VideoTotal(es[..|es| - 1]) + if es[|es| - 1].media.video then 1 else 0
  }

  /** The record made of an entry, after those before it. */
  ghost predicate IsRecordOf(record: R.Fields, r: S.Registry, es: seq<Entry>, i: nat)
    requires i < |es|
  {
    var e, id := es[i], Resolve(Rendered(r, es[..i]).registry, es[i].event).1;
    && record.timeLabel == e.timeLabel && record.kind == e.kind && record.body == e.body && record.payloads == e.payloads
    && record.serial == id.serial
    && record.speaker == (if e.event.operator then "<operator>"
                          else if id.name != "" then id.name
                          else if id.ordinal.Some? then "<member-" + Numeral(id.ordinal.value) + ">"
                          else "<member-?>")
    && record.flags == MediaFlags(e.media, ImageTotal(es[..i]), VideoTotal(es[..i])) + e.flags
  }

  lemma {:induction false} RecordsAreOf(r: S.Registry, es: seq<Entry>)
    ensures var t := Rendered(r, es);
            && |t.records| == |es| && t.images == ImageTotal(es) && t.videos == VideoTotal(es)
            && forall i | 0 <= i < |es| :: IsRecordOf(t.records[i], r, es, i)
  {
    hide Resolve, MediaFlags, Numeral;
    if es != [] {
      var init, last := es[..|es| - 1], |es| - 1;
      RecordsAreOf(r, init);
      forall i | 0 <= i < |es|
        ensures IsRecordOf(Rendered(r, es).records[i], r, es, i)
      {
        assert i < last ==> init[..i] == es[..i] && init[i] == es[i] && IsRecordOf(Rendered(r, init).records[i], r, init, i);
      }
    }
  }

  /** Entry by entry, the text of a turn of plain records reads as the entry's record: its time, who wrote
      it, its serial, its kind, all of its flags, its body and its payloads. */
  lemma EntryIsShown(r: S.Registry, es: seq<Entry>, i: nat)
    requires i < |es| && |Rendered(r, es).records| == |es|
    requires forall j | 0 <= j < |es| :: RR.Plain(Rendered(r, es).records[j])
    ensures var blocks := R.RecordBlocks(R.RenderTurn(Rendered(r, es).records));
            |blocks| == |es| && exists record :: IsRecordOf(record, r, es, i) && RR.ReadsAs(blocks[i].text, record)
  {
    hide Rendered, RR.Plain, RR.ReadsAs, R.RecordBlocks, R.RenderTurn, IsRecordOf;
    RecordsAreOf(r, es);
    RR.TurnIsReadBack(Rendered(r, es).records);
    var record := Rendered(r, es).records[i];
    assert IsRecordOf(record, r, es, i);
  }

  /** A video has its flag before the images, numbered in its own count. */
  lemma VideoIsFlagged(m: Media, images: nat, videos: nat)
    ensures var flags := MediaFlags(m, images, videos);
            if m.video then flags != [] && flags[0] == "video#" + Numeral(videos + 1) && flags[1..] == MediaFlags(m.(video := false), images, videos)
            else forall f | f in flags :: !("video#" <= f)
  {
    hide Numeral;
    var images_ := ImageFlags(m, images);
    forall f | f in images_
      ensures !("video#" <= f)
    {
      assert f[0] == 'i' || f[0] == 'a';
    }
  }

  /** The name a record carries: the event's, else the roster's, else the stored one; only a nameless member
      who is not the operator gets an ordinal, the stored one if there is one. */
  lemma NameIs(r: S.Registry, e: Event)
    requires !S.Raises(r)
    ensures var id := Resolve(r, e).1;
            var known := S.SerialFor(S.Load(r), e.messageId);
            var entries := S.Load(r).view.entries;
            var stored := if known > 0 && known in entries then Some(entries[known]) else None;
            && (known > 0 ==> id.serial == known)
            && id.name == (if e.eventName != "" then e.eventName
                           else if e.rosterName != "" then e.rosterName
                           else if stored.Some? then stored.value.name else "")
            && (id.ordinal.Some? <==> !e.operator && id.name == "")
            && (id.ordinal.Some? && stored.Some? && stored.value.ordinal > 0 ==> id.ordinal == Some(stored.value.ordinal))
  {
    hide S.Next, S.SerialFor, S.OrdinalFor, S.Load;
    LoadedStays(r);
  }
}
