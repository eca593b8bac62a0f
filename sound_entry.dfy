/** SoundEntry and SubtitleEntry of engines/lastexpress/sound/entry.cpp, with the
    part of the SoundQueue they use: the list of entries (looked up by type), the
    cycling type counter, the queue's flag word and the subtitle bookkeeping. */
module SoundEntries {
  import opened SoundFlags
  import opened SoundVolume
  import opened SoundNames
  import opened SoundRecord
  import opened SoundHandles

  // Entity indices (EntityIndex); only their distinctness matters here.
  const EntityPlayer: bv32 := 0
  const EntityTrain: bv32 := 32
  const EntitySteam: bv32 := 0x80
  /** updateSound looks up a volume only for entities below this index. */
  const EntityLimit: bv32 := 0x80

  /** `(SoundType)(_type + 1)`: the value the cycling type counter moves on to. */
  function NextType(t: bv32): bv32
  {
    t + 1
  }

  /** The index of the first `t` in `ts`, or |ts| when there is none. */
  function FirstIndex(ts: seq<bv32>, t: bv32): (k: nat)
    ensures k <= |ts| && (k < |ts| ==> ts[k] == t)
    ensures forall j :: 0 <= j < k ==> ts[j] != t
  {
    if ts == [] then 0 else if ts[0] == t then 0 else 1 + FirstIndex(ts[1..], t)
  }

  /** The types of the entries, in queue order. */
  function TypesOf(s: seq<SoundEntry>): (ts: seq<bv32>)
    reads s
    ensures |ts| == |s| && forall i :: 0 <= i < |s| ==> ts[i] == s[i].soundType
  {
    seq(|s|, i requires 0 <= i < |s| reads s => s[i].soundType)
  }

  /** SoundQueue::getEntry: the first entry of `s` whose type is `t`. */
  function FirstOfType(s: seq<SoundEntry>, t: bv32): (r: SoundEntry?)
    reads s
    ensures r != null ==> r in s && r.soundType == t
  {
    var k := FirstIndex(TypesOf(s), t);
    if k < |s| then s[k] else null
  }

  /** The lookup fails exactly when no entry has the type. */
  lemma FirstOfTypeNone(s: seq<SoundEntry>, t: bv32)
    ensures FirstOfType(s, t) == null <==> forall e :: e in s ==> e.soundType != t
  {
    var k := FirstIndex(TypesOf(s), t);
    if k == |s| {
      forall e | e in s ensures e.soundType != t {
        var i :| 0 <= i < |s| && s[i] == e;
        assert TypesOf(s)[i] != t;
      }
    }
  }

  /** `s` with every occurrence of `x` removed (Common::List::remove). */
  function Without<T(==)>(s: seq<T>, x: T): (r: seq<T>)
    ensures x !in r && |r| <= |s|
    ensures forall i :: 0 <= i < |r| ==> r[i] in s
    ensures forall i :: 0 <= i < |s| && s[i] != x ==> s[i] in r
  {
    if s == [] then [] else (if s[0] == x then [] else [s[0]]) + Without(s[1..], x)
  }

  /** Removing an element that was just appended to a list that did not hold it
      gives back the list. */
  lemma {:induction false} WithoutAppended<T>(s: seq<T>, x: T)
    requires x !in s
    ensures Without(s + [x], x) == s
  {
    if s != [] {
      assert (s + [x])[1..] == s[1..] + [x];
      WithoutAppended(s[1..], x);
    }
  }

  /** The SoundQueue state entry.cpp reads and writes. */
  class SoundQueue {
    var entries: seq<SoundEntry>
    var currentType: bv32
    var flag: bv32
    var subtitles: seq<SubtitleEntry>
    var currentSubtitle: SubtitleEntry?
    var subtitleFlag: bv32

    constructor (entries: seq<SoundEntry>, flag: bv32)
      ensures this.entries == entries && this.flag == flag && currentType == SoundTypeNone
      ensures subtitles == [] && currentSubtitle == null && subtitleFlag == 0
    {
      this.entries := entries;
      this.flag := flag;
      currentType := SoundTypeNone;
      subtitles := [];
      currentSubtitle := null;
      subtitleFlag := 0;
    }
  }

  /** The current holder of slot `t`, as a frame. */
  function SlotHolder(q: SoundQueue, t: bv32): set<SoundEntry>
    reads q, q.entries
  {
    var h := FirstOfType(q.entries, t);
    if h == null then {} else {h}
  }

  /** The entries a setType of category `c` may retype or fade: the holder of the
      slot the category claims and, for an ambient open, the holder of slot 2. */
  function Holders(q: SoundQueue, c: Category): set<SoundEntry>
    reads q, q.entries
  {
    if c == Normal then {}
    else SlotHolder(q, HolderType(c)) + (if c == Ambient then SlotHolder(q, SoundType2) else {})
  }

  /** What close asks of the engine for the entry's entity: nothing, a restart
      of the looping steam sound, or a kActionEndSound savepoint for the entity. */
  datatype CloseSignal = NoSignal | RestartSteamLoop | PushEndSound(entity: bv32)

  /** close: the player and the train send nothing, steam restarts the looping
      sound, every other entity is sent kActionEndSound. */
  function CloseSignalOf(entity: bv32): (r: CloseSignal)
    ensures r == NoSignal <==> entity == EntityPlayer || entity == EntityTrain
    ensures r == RestartSteamLoop <==> entity == EntitySteam
    ensures r.PushEndSound? ==> r.entity == entity
  {
    if entity == EntityPlayer then NoSignal
    else if entity == EntitySteam then RestartSteamLoop
    else if entity != EntityTrain then PushEndSound(entity)
    else NoSignal
  }

  /** The syncs of saveLoadWithSerializer in the saving direction, in file
      order: nine words, then two 16-byte name buffers. */
  method WriteRecord(s: Serializer, r: Record)
    requires !s.loading && WellFormed(r)
    modifies s`bytes
    ensures s.bytes == old(s.bytes) + Encode(r)
  {
    ghost var b := s.bytes;
    s.SaveWord(r.status);
    s.SaveWord(r.soundType);
    s.SaveWord(r.blockCount);
    s.SaveWord(r.time);
    s.SaveWord(r.field34);
    s.SaveWord(r.field38);
    s.SaveWord(r.entity);
    s.SaveWord(r.delta);
    s.SaveWord(r.priority);
    s.SaveBytes(r.name1);
    s.SaveBytes(r.name2);
    AppendedInOrder(b, Uint32LE(r.status), Uint32LE(r.soundType), Uint32LE(r.blockCount),
      Uint32LE(r.time), Uint32LE(r.field34), Uint32LE(r.field38), Uint32LE(r.entity),
      Uint32LE(r.delta), Uint32LE(r.priority), r.name1, r.name2);
  }

  /** The syncs of saveLoadWithSerializer in the loading direction, in file
      order: nine words, then two 16-byte name buffers, together one record. */
  method ReadRecord(s: Serializer) returns (r: Record)
    requires s.loading && s.pos + RecordSize <= |s.bytes|
    modifies s`pos
    ensures s.pos == old(s.pos) + RecordSize
    ensures r == Decode(old(s.bytes)[old(s.pos)..old(s.pos) + RecordSize])
  {
    ghost var p := s.pos;
    var st := s.LoadWord();
    var ty := s.LoadWord();
    var bc := s.LoadWord();
    var tm := s.LoadWord();
    var f34 := s.LoadWord();
    var f38 := s.LoadWord();
    var en := s.LoadWord();
    var delta := s.LoadWord();
    var pr := s.LoadWord();
    var n1 := s.LoadBytes(NameFieldSize);
    var n2 := s.LoadBytes(NameFieldSize);
    r := Record(st, ty, bc, tm, f34, f38, en, delta, pr, n1, n2);
    DecodeAt(s.bytes, p);
  }

  class SoundEntry {
    var status: bv32
    var soundType: bv32
    var blockCount: bv32
    var time: bv32
    var field34: bv32
    var field38: bv32
    var field3C: bv32
    var variant: bv32
    var entity: bv32
    var field48: bv32
    var priority: bv32
    var name1: string
    var name2: string
    var stream: Stream?
    var soundStream: StreamedSound?
    var subtitle: SubtitleEntry?
    var queued: bool

    constructor ()
      ensures status == 0 && soundType == SoundTypeNone && blockCount == 0 && time == 0
      ensures field34 == 0 && field38 == 0 && field3C == 0 && variant == 0
      ensures entity == EntityPlayer && field48 == 0 && priority == 0
      ensures stream == null && soundStream == null && subtitle == null && !queued
      ensures Valid() && IsFinished()
    {
      status := 0;
      soundType := SoundTypeNone;
      blockCount := 0;
      time := 0;
      field34 := 0;
      field38 := 0;
      field3C := 0;
      variant := 0;
      entity := EntityPlayer;
      field48 := 0;
      priority := 0;
      name1 := "";
      name2 := "";
      stream := null;
      subtitle := null;
      soundStream := null;
      queued := false;
    }

    function Vol(): Volume
      reads this
    {
      Volume(status, field3C, variant)
    }

    /** Stream ownership: a live stream has not been freed; a sound stream exists
        only once the entry is queued, is not deleted, and was loaded from the
        entry's own stream if it was loaded at all. */
    ghost predicate Valid()
      reads this, stream, soundStream
    {
      (stream != null ==> !stream.freed) &&
      (soundStream != null ==>
         queued && stream != null && !soundStream.deleted &&
         (soundStream.source == null || soundStream.source == stream))
    }

    /** SoundEntry::isFinished: finished once the stream is gone; not finished
        while the stream has not been queued on a StreamedSound; otherwise what
        the StreamedSound reports. */
    predicate IsFinished()
      reads this, soundStream
      ensures stream == null ==> IsFinished()
      ensures stream != null && !queued ==> !IsFinished()
      ensures stream != null && queued && soundStream != null ==> (IsFinished() <==> soundStream.finished)
    {
      if stream == null then true
      else if soundStream == null || !queued then false
      else soundStream.finished
    }

    /** SoundEntry::update(val). */
    method Update(queueFlag: bv32, val: bv32)
      modifies this`status, this`field3C, this`variant
      ensures status == UpdatedStatus(old(status), val)
      ensures field3C == UpdatedLevel(old(status), old(field3C), val, queueFlag)
      ensures variant == UpdatedVariant(old(status), old(variant), val, queueFlag)
      ensures Vol() == SoundFlags.Update(old(Vol()), val, queueFlag)
    {
      status, field3C, variant := ApplyUpdate(status, field3C, variant, val, queueFlag);
    }

    /** The new slot assignment after a setType whose flag has category `c`,
        relative to the state before it: the entry's own type, the counter, and
        the demoted holders other than the entry itself. */
    twostate predicate Retyped(q: SoundQueue, c: Category)
      reads this, q, q.entries
    {
      if c == Normal then TookCounter(q) else Claimed(q, c) && (c == Ambient ==> Slot2Faded(q))
    }

    /** The normal branch: the entry takes the counter, which moves on by one. */
    twostate predicate TookCounter(q: SoundQueue)
      reads this, q
    {
      soundType == old(q.currentType) && q.currentType == NextType(old(q.currentType))
    }

    /** A special branch: the entry holds the claimed slot and the counter is
        untouched; the old holder of the looked-up slot, when there was one, is
        moved to the demotion slot and is faded for the categories that fade it.
        The entry's own volume, when it is itself a holder, is stated by setType. */
    twostate predicate Claimed(q: SoundQueue, c: Category)
      requires c != Normal
      reads this, q, q.entries
    {
      q.entries == old(q.entries) && q.currentType == old(q.currentType) &&
      var h := old(FirstOfType(q.entries, HolderType(c)));
      soundType == ClaimedType(c) &&
      (h != null && h != this ==>
         h.soundType == DemotionType(c) &&
         h.Vol() == if FadesHolder(c) then SoundFlags.Update(old(h.Vol()), 0, q.flag) else old(h.Vol()))
    }

    /** The ambient branch also fades the old holder of slot 2, which keeps its
        slot unless it is the entry itself. */
    twostate predicate Slot2Faded(q: SoundQueue)
      reads this, q, q.entries
    {
      q.entries == old(q.entries) &&
      var h2 := old(FirstOfType(q.entries, SoundType2));
      h2 != null && h2 != this ==>
        h2.soundType == SoundType2 && h2.Vol() == SoundFlags.Update(old(h2.Vol()), 0, q.flag)
    }

    /** SoundEntry::setType(flag).  Besides the entry's own type and the queue's
        counter, only the type and volume fields of the holders change. */
    method SetType(q: SoundQueue, flag: bv32)
      modifies this`soundType, q`currentType
      modifies Holders(q, CategoryOf(flag))`soundType, Holders(q, CategoryOf(flag))`status
      modifies Holders(q, CategoryOf(flag))`field3C, Holders(q, CategoryOf(flag))`variant
      ensures Retyped(q, CategoryOf(flag))
      ensures Vol() == if this in old(Holders(q, CategoryOf(flag))) && FadesHolder(CategoryOf(flag))
        then SoundFlags.Update(old(Vol()), 0, q.flag) else old(Vol())
    {
      var c := CategoryOf(flag);
      if c == Normal {
        soundType := q.currentType;
        q.currentType := NextType(soundType);
      } else {
        Claim(q, c);
      }
    }

    /** The special branches of setType: demote the current holder of the slot
        (for an ambient open, first fade the holder of slot 2), then claim. */
    method Claim(q: SoundQueue, c: Category)
      requires c != Normal
      modifies this`soundType
      modifies Holders(q, c)`soundType, Holders(q, c)`status, Holders(q, c)`field3C, Holders(q, c)`variant
      ensures Retyped(q, c)
      ensures Vol() == if this in old(Holders(q, c)) && FadesHolder(c)
        then SoundFlags.Update(old(Vol()), 0, q.flag) else old(Vol())
    {
      if c == Ambient {
        ClaimAmbient(q);
      } else {
        var previous := FirstOfType(q.entries, HolderType(c));
        if previous != null {
          previous.Demote(q, c);
        }
        soundType := ClaimedType(c);
      }
    }

    /** The ambient branch: fade the holder of slot 2, demote the holder of
        slot 1 to slot 2 and fade it, and claim slot 1. */
    method ClaimAmbient(q: SoundQueue)
      modifies this`soundType
      modifies Holders(q, Ambient)`soundType, Holders(q, Ambient)`status
      modifies Holders(q, Ambient)`field3C, Holders(q, Ambient)`variant
      ensures Claimed(q, Ambient) && Slot2Faded(q)
      ensures Vol() == if this in old(Holders(q, Ambient))
        then SoundFlags.Update(old(Vol()), 0, q.flag) else old(Vol())
    {
      var previous2 := FirstOfType(q.entries, SoundType2);
      if previous2 != null {
        previous2.Update(q.flag, 0);
      }
      assert TypesOf(q.entries) == old(TypesOf(q.entries));
      var previous := FirstOfType(q.entries, SoundType1);
      if previous != null {
        previous.Demote(q, Ambient);
      }
      soundType := ClaimedType(Ambient);
    }

    /** The holder's side of a special setType: `setType(kSoundTypeN)`, the
        SoundType overload, moves the holder to slot N; then update(0) for
        ambient and walla opens. */
    method Demote(q: SoundQueue, c: Category)
      requires c != Normal
      modifies this`soundType, this`status, this`field3C, this`variant
      ensures soundType == DemotionType(c)
      ensures Vol() == if FadesHolder(c) then SoundFlags.Update(old(Vol()), 0, q.flag) else old(Vol())
    {
      soundType := DemotionType(c);
      if FadesHolder(c) {
        Update(q.flag, 0);
      }
    }

    /** SoundEntry::setupStatus(flag). */
    method SetupStatus(flag: bv32)
      modifies this`status
      ensures status == SoundFlags.SetupStatus(flag)
    {
      status := flag;
      if status & VolumeMask == VolumeNone {
        status := status | MuteRequested;
      }
      if status & Looped == 0 {
        status := status | CloseOnDataEnd;
      }
    }

    /** The stream loadStream opens for `name`: the archive ArchiveChoice picks,
        unread and live, or none when there is no archive to open. */
    ghost predicate StreamFor(res: Resources, name: string)
      reads this, stream
    {
      var choice := ArchiveChoice(res, name);
      (stream == null <==> choice.None?) &&
      (stream != null ==> stream.name == choice.value && stream.pos == 0 && !stream.freed)
    }

    /** SoundEntry::loadStream(name): the named archive, else DEFAULT.SND, else no
        stream and a status of exactly CloseRequested.  The previous stream, if
        any, is overwritten without being released, as in the source. */
    method LoadStream(res: Resources, name: string)
      modifies this`name2, this`stream, this`status
      ensures name2 == name && StreamFor(res, name) && (stream != null ==> fresh(stream))
      ensures status == if stream == null then CloseRequested else old(status)
    {
      name2 := name;
      stream := null;
      if name in res.files {
        stream := new Stream(name);
      }
      if stream == null && DefaultArchive in res.files {
        stream := new Stream(DefaultArchive);
      }
      if stream == null {
        status := CloseRequested;
      }
    }

    /** SoundEntry::open(name, flag, priority).  The priority is stored before
        setType in the source; setType neither reads nor writes it, so storing it
        with the rest of the set-up is the same. */
    method Open(q: SoundQueue, res: Resources, name: string, flag: bv32, priority: bv32)
      modifies this`priority, this`soundType, this`status, this`name2, this`stream, q`currentType
      modifies Holders(q, CategoryOf(flag))`soundType, Holders(q, CategoryOf(flag))`status
      modifies Holders(q, CategoryOf(flag))`field3C, Holders(q, CategoryOf(flag))`variant
      ensures this.priority == priority && name2 == name
      ensures Retyped(q, CategoryOf(flag))
      ensures StreamFor(res, name) && (stream != null ==> fresh(stream))
      ensures status == if stream == null then CloseRequested else SoundFlags.SetupStatus(flag)
      ensures old(soundStream) == null ==> Valid()
    {
      SetType(q, flag);
      Prepare(res, name, flag, priority);
    }

    /** The part of open after the type is set: the priority, setupStatus(flag),
        then loadStream(name). */
    method Prepare(res: Resources, name: string, flag: bv32, priority: bv32)
      modifies this`priority, this`status, this`name2, this`stream
      ensures this.priority == priority && name2 == name
      ensures StreamFor(res, name) && (stream != null ==> fresh(stream))
      ensures status == if stream == null then CloseRequested else SoundFlags.SetupStatus(flag)
      ensures soundStream == null ==> Valid()
    {
      this.priority := priority;
      SetupStatus(flag);
      LoadStream(res, name);
    }

    /** SoundEntry::close(): request the close, take down the subtitle and say
        what the entity is to be told. */
    method Close(q: SoundQueue) returns (signal: CloseSignal)
      modifies this`status, this`subtitle, q`subtitles, q`currentSubtitle, q`subtitleFlag
      modifies (if subtitle == null then {} else {subtitle})`drawCount
      ensures status == old(status) | CloseRequested && subtitle == null
      ensures signal == CloseSignalOf(entity)
      ensures old(subtitle) != null ==> q.subtitles == Without(old(q.subtitles), old(subtitle) as SubtitleEntry)
      ensures old(subtitle) != null && old(q.currentSubtitle) == old(subtitle) ==>
        (q.currentSubtitle == null && q.subtitleFlag == 0 &&
         old(subtitle).drawCount == old(subtitle.drawCount) + (if old(subtitle.data) == null then 0 else 1))
      ensures old(subtitle) != null && old(q.currentSubtitle) != old(subtitle) ==>
        (q.currentSubtitle == old(q.currentSubtitle) && q.subtitleFlag == old(q.subtitleFlag) &&
         old(subtitle).drawCount == old(subtitle.drawCount))
      ensures old(subtitle) == null ==>
        (q.subtitles == old(q.subtitles) && q.currentSubtitle == old(q.currentSubtitle) &&
         q.subtitleFlag == old(q.subtitleFlag))
    {
      status := status | CloseRequested;
      if subtitle != null {
        subtitle.Draw(q);
        subtitle := null;
      }
      signal := CloseSignalOf(entity);
    }

    /** SoundEntry::play().  Without a stream the source raises a fatal error;
        here the call reports failure and changes nothing. */
    method Play() returns (ok: bool)
      requires Valid()
      modifies this`soundStream, this`queued, (if stream == null then {} else {stream})`pos
      modifies (if soundStream == null then {} else {soundStream})`source
      modifies (if soundStream == null then {} else {soundStream})`filterId
      modifies (if soundStream == null then {} else {soundStream})`loadCount
      ensures ok == (old(stream) != null)
      ensures !ok ==> soundStream == old(soundStream) && queued == old(queued)
      ensures ok ==> soundStream != null && queued && stream == old(stream)
      ensures ok ==> soundStream.filterId == old(status) & VolumeMask
      ensures ok && old(soundStream) == null ==> fresh(soundStream) && !soundStream.finished && !soundStream.stopped
      ensures ok && old(soundStream) != null ==>
        soundStream == old(soundStream) && soundStream.finished == old(soundStream.finished) &&
        soundStream.stopped == old(soundStream.stopped)
      ensures ok && !old(queued) ==>
        soundStream.source == stream && stream.pos == 0 && soundStream.loadCount == 1
      ensures ok && old(queued) ==>
        stream.pos == old(stream.pos) && soundStream.source == old(if soundStream == null then null else soundStream.source) &&
        soundStream.loadCount == old(if soundStream == null then 0 else soundStream.loadCount)
      ensures Valid()
    {
      if stream == null {
        return false;
      }
      if soundStream == null {
        soundStream := new StreamedSound();
      }
      var filterId := status & VolumeMask;
      if queued {
        soundStream.SetFilterId(filterId);
      } else {
        stream.Seek(0);
        soundStream.Load(stream, filterId);
        queued := true;
      }
      ok := true;
    }

    /** SoundEntry::reset(): request the close, detach the entity and release
        the stream.  A stream that was never handed to a StreamedSound is freed
        directly; otherwise the StreamedSound is stopped and deleted, which
        disposes of the stream it was loaded from. */
    method Reset()
      requires Valid()
      modifies this`status, this`entity, this`stream, this`soundStream, stream, soundStream
      ensures status == old(status) | CloseRequested && entity == EntityPlayer
      ensures stream == null && soundStream == null
      ensures old(stream) != null && old(soundStream) == null ==> old(stream).freed
      ensures old(soundStream) != null ==>
        old(soundStream).stopped && old(soundStream).deleted &&
        (old(soundStream.source) != null ==> old(soundStream.source).freed)
      ensures old(stream) == null ==> old(soundStream) == null
      ensures Valid() && IsFinished()
    {
      status := status | CloseRequested;
      entity := EntityPlayer;
      if stream != null {
        if soundStream == null {
          stream.Free();
        } else {
          soundStream.Stop();
          soundStream.Delete();
          soundStream := null;
        }
        stream := null;
      }
    }

    /** The record saveLoadWithSerializer writes for this entry at sound clock
        `clock`; `junk1` and `junk2` stand for the uninitialised bytes of the two
        name buffers after their terminators. */
    function SavedRecord(clock: bv32, junk1: seq<bv8>, junk2: seq<bv8>): (r: Record)
      requires FitsNameBuffer(name1) && FitsNameBuffer(name2)
      requires |junk1| == NameFieldSize && |junk2| == NameFieldSize
      reads this
      ensures WellFormed(r)
      ensures r.delta == SaveDelta(field48, clock) && r.delta <= DeltaBound
      ensures WordsOf(r) == [status] + [soundType] + [blockCount] + [time] + [field34] + [field38] +
                            [entity] + [SaveDelta(field48, clock)] + [priority]
      ensures r.name1 == NameField(name1, junk1) && r.name2 == NameField(name2, junk2)
    {
      Record(status, soundType, blockCount, time, field34, field38, entity,
             SaveDelta(field48, clock), priority, NameField(name1, junk1), NameField(name2, junk2))
    }

    /** SoundEntry::saveLoadWithSerializer.  Only NISSND? entries outside the menu
        category take part.  Saving appends the 68-byte record; loading reads one
        and keeps the words the source syncs into fields (status, type, block
        count, time, field_34, field_38, entity, priority): the delay and the two
        names are read into locals and dropped. */
    method SaveLoad(s: Serializer, clock: bv32, junk1: seq<bv8>, junk2: seq<bv8>)
      requires FitsNameBuffer(name1) && FitsNameBuffer(name2)
      requires |junk1| == NameFieldSize && |junk2| == NameFieldSize
      requires s.loading ==> s.pos + RecordSize <= |s.bytes|
      modifies s`bytes, s`pos
      modifies this`status, this`soundType, this`blockCount, this`time
      modifies this`field34, this`field38, this`entity, this`priority
      ensures !Persisted(old(name2), old(status)) || !s.loading ==> Synced() == old(Synced())
      ensures !Persisted(old(name2), old(status)) ==> s.bytes == old(s.bytes) && s.pos == old(s.pos)
      ensures Persisted(old(name2), old(status)) && !s.loading ==>
        s.bytes == old(s.bytes) + Encode(old(SavedRecord(clock, junk1, junk2))) && s.pos == old(s.pos)
      ensures Persisted(old(name2), old(status)) && s.loading ==>
        s.bytes == old(s.bytes) && s.pos == old(s.pos) + RecordSize &&
        Synced() == Kept(Decode(old(s.bytes)[old(s.pos)..old(s.pos) + RecordSize]))
    {
      if !(MatchesNisSnd(name2) && status & TypeMask != TypeMenu) {
        return;
      }
      if s.loading {
        Load(s);
      } else {
        WriteRecord(s, SavedRecord(clock, junk1, junk2));
      }
    }

    /** The loading direction: every sync consumes; the words synced into fields
        land there, the delay and the names land in locals and are dropped. */
    method Load(s: Serializer)
      requires s.loading && s.pos + RecordSize <= |s.bytes|
      modifies s`pos
      modifies this`status, this`soundType, this`blockCount, this`time
      modifies this`field34, this`field38, this`entity, this`priority
      ensures s.bytes == old(s.bytes) && s.pos == old(s.pos) + RecordSize
      ensures Synced() == Kept(Decode(old(s.bytes)[old(s.pos)..old(s.pos) + RecordSize]))
    {
      var r := ReadRecord(s);
      status, soundType, blockCount, time := r.status, r.soundType, r.blockCount, r.time;
      field34, field38, entity, priority := r.field34, r.field38, r.entity, r.priority;
    }

    /** The fields saveLoadWithSerializer syncs, in file order. */
    function Synced(): (ws: seq<bv32>)
      reads this
      ensures |ws| == 8
    {
      [status, soundType, blockCount, time, field34, field38, entity, priority]
    }

    /** SoundEntry::updateEntryFlag(flag). */
    method UpdateEntryFlag(queueFlag: bv32, flag: bv32)
      modifies this`status, this`field3C, this`variant
      ensures status == EntryFlagStatus(old(status), soundType, flag, queueFlag)
      ensures field3C == EntryFlagLevel(old(status), old(field3C), soundType, flag, queueFlag)
      ensures variant == EntryFlagVariant(old(status), old(variant), soundType, flag, queueFlag)
      ensures Vol() == SoundFlags.UpdateEntryFlag(old(Vol()), soundType, flag, queueFlag)
    {
      status, field3C, variant := ApplyEntryFlag(status, field3C, variant, soundType, flag, queueFlag);
    }

    /** SoundEntry::updateState(). */
    method UpdateState(queueFlag: bv32)
      modifies this`status, this`variant
      ensures status == StateStatus(old(status), soundType, queueFlag)
      ensures variant == StateVariant(old(status), old(variant), soundType, queueFlag)
      ensures Vol() == SoundFlags.UpdateState(old(Vol()), soundType, queueFlag)
    {
      status, variant := ApplyState(status, variant, soundType, queueFlag);
    }

    /** SoundEntry::showSubtitle(filename): create and load a subtitle; if it
        came back Closed (no such file) take it down again, otherwise keep it
        and mark the entry as having subtitles. */
    method ShowSubtitle(q: SoundQueue, res: Resources, name: string)
      modifies this`subtitle, this`status, q`subtitles, q`currentSubtitle, q`subtitleFlag
      ensures name + SubtitleExtension !in res.files ==>
        (subtitle == null && status == old(status) && q.subtitles == old(q.subtitles) &&
         q.currentSubtitle == old(q.currentSubtitle) && q.subtitleFlag == old(q.subtitleFlag))
      ensures name + SubtitleExtension in res.files ==>
        (subtitle != null && fresh(subtitle) && subtitle.sound == this &&
         subtitle.filename == name + SubtitleExtension && status == WithSubtitles(old(status)) &&
         q.subtitles == old(q.subtitles) + [subtitle] &&
         (subtitle.data != null <==> !DataLoaded(old(q.subtitleFlag))) &&
         (DataLoaded(old(q.subtitleFlag)) ==>
            q.subtitleFlag == old(q.subtitleFlag) && q.currentSubtitle == old(q.currentSubtitle)) &&
         (!DataLoaded(old(q.subtitleFlag)) ==>
            q.subtitleFlag == old(q.subtitleFlag) | SubtitleLoaded && q.currentSubtitle == subtitle))
    {
      var sub := new SubtitleEntry();
      sub.Load(q, res, name, this);
      if IsClosed(sub.status) {
        assert sub !in old(q.subtitles);
        WithoutAppended(old(q.subtitles), sub);
        sub.Draw(q);
        subtitle := null;
      } else {
        subtitle := sub;
        status := WithSubtitles(status);
      }
    }

    /** SoundEntry::updateSound(): false exactly for a closed entry.  A delayed
        entry whose activation time has come is activated and shows the subtitle
        named after it; an active entry otherwise follows its entity's volume. */
    method UpdateSound(q: SoundQueue, res: Resources, clock: bv32, volumeOf: bv32 -> bv32) returns (result: bool)
      requires FitsNameBuffer(name2)
      modifies this`status, this`field3C, this`variant, this`subtitle
      modifies q`subtitles, q`currentSubtitle, q`subtitleFlag
      ensures result == !IsClosed(old(status))
      ensures IsClosed(old(status)) || (IsDelayed(old(status)) && !Due(field48, clock)) ==>
        (Vol() == old(Vol()) && subtitle == old(subtitle) && q.subtitles == old(q.subtitles) &&
         q.currentSubtitle == old(q.currentSubtitle) && q.subtitleFlag == old(q.subtitleFlag))
      ensures !IsClosed(old(status)) && IsDelayed(old(status)) && Due(field48, clock) ==>
        var stem := SubtitleStem(name2) + SubtitleExtension;
        (status == if stem in res.files then WithSubtitles(Activated(old(status))) else Activated(old(status))) &&
        (stem in res.files <==> subtitle != null) &&
        field3C == old(field3C) && variant == old(variant) &&
        (subtitle != null ==> fresh(subtitle) && subtitle.filename == stem && subtitle.sound == this &&
                              q.subtitles == old(q.subtitles) + [subtitle]) &&
        (subtitle != null && DataLoaded(old(q.subtitleFlag)) ==>
           q.subtitleFlag == old(q.subtitleFlag) && q.currentSubtitle == old(q.currentSubtitle)) &&
        (subtitle != null && !DataLoaded(old(q.subtitleFlag)) ==>
           q.subtitleFlag == old(q.subtitleFlag) | SubtitleLoaded && q.currentSubtitle == subtitle) &&
        (subtitle == null ==>
           q.subtitles == old(q.subtitles) && q.currentSubtitle == old(q.currentSubtitle) &&
           q.subtitleFlag == old(q.subtitleFlag))
      ensures !IsClosed(old(status)) && !IsDelayed(old(status)) ==>
        (subtitle == old(subtitle) && q.subtitles == old(q.subtitles) &&
         q.currentSubtitle == old(q.currentSubtitle) && q.subtitleFlag == old(q.subtitleFlag) &&
         Vol() == if FollowsEntityVolume(old(status), entity, q.flag)
                  then SoundFlags.UpdateEntryFlag(old(Vol()), soundType, volumeOf(entity), q.flag)
                  else old(Vol()))
    {
      if IsClosed(status) {
        result := false;
      } else {
        if IsDelayed(status) {
          if Due(field48, clock) {
            status := Activated(status);
            ShowSubtitle(q, res, SubtitleStem(name2));
          }
        } else {
          if q.flag & VariantMode == 0 {
            if status & FixedVolume == 0 {
              if entity != EntityPlayer {
                if entity < EntityLimit {
                  UpdateEntryFlag(q.flag, volumeOf(entity));
                }
              }
            }
          }
        }
        result := true;
      }
    }
  }

  /** The Closed bit of a status word: a closed sound entry has finished its
      update, and a subtitle whose load found no file comes back closed. */
  predicate IsClosed(status: bv32)
  {
    status & Closed != 0
  }

  predicate IsDelayed(status: bv32)
  {
    status & DelayedActivate != 0
  }

  /** A delayed entry activates once the sound clock (getData2) reaches field_48. */
  predicate Due(field48: bv32, clock: bv32)
  {
    field48 <= clock
  }

  /** The activation of a delayed entry: PlayRequested set, DelayedActivate cleared. */
  function Activated(status: bv32): (r: bv32)
    ensures r & PlayRequested != 0 && r & DelayedActivate == 0
    ensures r & !(PlayRequested | DelayedActivate) == status & !(PlayRequested | DelayedActivate)
  {
    (status | PlayRequested) & !DelayedActivate
  }

  function WithSubtitles(status: bv32): (r: bv32)
    ensures r & HasSubtitles != 0 && r & !HasSubtitles == status & !HasSubtitles
  {
    status | HasSubtitles
  }

  /** updateSound follows the entity's volume only outside variant mode, for
      entries without FixedVolume, and for entities other than the player below
      the entity limit. */
  predicate FollowsEntityVolume(status: bv32, entity: bv32, queueFlag: bv32)
  {
    queueFlag & VariantMode == 0 && status & FixedVolume == 0 && entity != EntityPlayer && entity < EntityLimit
  }

  /** The two bits of the queue's subtitle flag entry.cpp uses. */
  const SubtitleOnScreen: bv32 := 1
  const SubtitleLoaded: bv32 := 2
  /** `& -2` on the 32-bit subtitle flag. */
  const ClearOnScreen: bv32 := 0xFFFF_FFFE

  /** The extension load appends to a subtitle name. */
  const SubtitleExtension: string := ".SBE"

  predicate DataLoaded(subtitleFlag: bv32)
  {
    subtitleFlag & SubtitleLoaded != 0
  }

  predicate OnScreen(subtitleFlag: bv32)
  {
    subtitleFlag & SubtitleOnScreen != 0
  }

  /** The subtitle flag after setupAndDraw draws: the on-screen bit, if set, is
      consumed by the draw. */
  function FlagAfterShow(subtitleFlag: bv32): (r: bv32)
    ensures r & SubtitleOnScreen == 0
    ensures r & !SubtitleOnScreen == subtitleFlag & !SubtitleOnScreen
  {
    if OnScreen(subtitleFlag) then subtitleFlag & ClearOnScreen else subtitleFlag
  }

  /** The number of draws setupAndDraw makes: one exactly when the on-screen bit is set. */
  function DrawsOnShow(subtitleFlag: bv32): (n: nat)
    ensures n <= 1 && (n == 1 <==> OnScreen(subtitleFlag))
  {
    if OnScreen(subtitleFlag) then 1 else 0
  }

  /** The subtitle's data runs longer than the sound has played so far;
      setupAndDraw closes such a subtitle instead of drawing it. */
  predicate OutlastsSound(maxTime: bv32, time: bv32)
  {
    maxTime > time
  }

  /** `(uint16)time`: the low sixteen bits. */
  function Low16(t: bv32): bv16
  {
    (t & 0xFFFF) as bv16
  }

  class SubtitleEntry {
    var status: bv32
    var sound: SoundEntry?
    var data: SubtitleData?
    var filename: string
    /** Draw calls made on the GraphicsManager for this subtitle. */
    ghost var drawCount: nat

    constructor ()
      ensures status == 0 && sound == null && data == null && filename == "" && drawCount == 0
    {
      status := 0;
      sound := null;
      data := null;
      filename := "";
      drawCount := 0;
    }

    /** SubtitleEntry::load(filename, soundEntry): register with the queue, then
        load the data unless the file is missing (Closed) or another subtitle's
        data is already loaded (bit 2 of the subtitle flag). */
    method Load(q: SoundQueue, res: Resources, name: string, soundEntry: SoundEntry?)
      modifies this`filename, this`sound, this`status, this`data
      modifies q`subtitles, q`subtitleFlag, q`currentSubtitle
      ensures q.subtitles == old(q.subtitles) + [this]
      ensures filename == name + SubtitleExtension && sound == soundEntry
      ensures filename !in res.files ==>
        (status == Closed && data == old(data) &&
         q.subtitleFlag == old(q.subtitleFlag) && q.currentSubtitle == old(q.currentSubtitle))
      ensures filename in res.files && DataLoaded(old(q.subtitleFlag)) ==>
        (status == old(status) && data == old(data) &&
         q.subtitleFlag == old(q.subtitleFlag) && q.currentSubtitle == old(q.currentSubtitle))
      ensures filename in res.files && !DataLoaded(old(q.subtitleFlag)) ==>
        (status == old(status) && data != null && fresh(data) && data.maxTime == res.maxTimeOf(filename) &&
         q.subtitleFlag == old(q.subtitleFlag) | SubtitleLoaded && q.currentSubtitle == this)
    {
      q.subtitles := q.subtitles + [this];
      filename := name + SubtitleExtension;
      sound := soundEntry;
      if filename in res.files {
        if DataLoaded(q.subtitleFlag) {
          return;
        }
        LoadData(q, res);
      } else {
        status := Closed;
      }
    }

    /** SubtitleEntry::loadData(): read the data, mark it loaded and make this
        the current subtitle. */
    method LoadData(q: SoundQueue, res: Resources)
      modifies this`data, q`subtitleFlag, q`currentSubtitle
      ensures data != null && fresh(data) && data.maxTime == res.maxTimeOf(filename)
      ensures q.subtitleFlag == old(q.subtitleFlag) | SubtitleLoaded && q.currentSubtitle == this
    {
      data := new SubtitleData(res.maxTimeOf(filename));
      q.subtitleFlag := q.subtitleFlag | SubtitleLoaded;
      q.currentSubtitle := this;
    }

    /** SubtitleEntry::setupAndDraw().  Without a sound entry the source raises
        a fatal error; here the call reports failure and changes nothing. */
    method SetupAndDraw(q: SoundQueue, res: Resources) returns (ok: bool)
      modifies this`data, this`status, this`drawCount, q`currentSubtitle, q`subtitleFlag
      modifies (if data == null then {} else {data})`time
      ensures ok == (sound != null)
      ensures !ok ==>
        (data == old(data) && status == old(status) && drawCount == old(drawCount) &&
         q.currentSubtitle == old(q.currentSubtitle) && q.subtitleFlag == old(q.subtitleFlag))
      ensures ok ==> data != null && q.currentSubtitle == this
      ensures ok && old(data) == null ==> fresh(data) && data.maxTime == res.maxTimeOf(filename)
      ensures ok && old(data) != null ==> data == old(data)
      ensures ok && OutlastsSound(data.maxTime, sound.time) ==>
        (status == Closed && drawCount == old(drawCount) && q.subtitleFlag == old(q.subtitleFlag) &&
         data.time == old(if data == null then 0 else data.time))
      ensures ok && !OutlastsSound(data.maxTime, sound.time) ==>
        (status == old(status) && data.time == Low16(sound.time) &&
         drawCount == old(drawCount) + DrawsOnShow(old(q.subtitleFlag)) &&
         q.subtitleFlag == FlagAfterShow(old(q.subtitleFlag)))
    {
      if sound == null {
        return false;
      }
      if data == null {
        data := new SubtitleData(res.maxTimeOf(filename));
      }
      Present(q);
      q.currentSubtitle := this;
      ok := true;
    }

    /** The body of setupAndDraw once the data is loaded: close the subtitle if
        its data outlasts the sound, otherwise move it to the sound's time and
        draw it if the on-screen bit is set. */
    method Present(q: SoundQueue)
      requires sound != null && data != null
      modifies this`status, this`drawCount, data`time, q`subtitleFlag
      ensures OutlastsSound(data.maxTime, sound.time) ==>
        (status == Closed && drawCount == old(drawCount) && q.subtitleFlag == old(q.subtitleFlag) &&
         data.time == old(data.time))
      ensures !OutlastsSound(data.maxTime, sound.time) ==>
        (status == old(status) && data.time == Low16(sound.time) &&
         drawCount == old(drawCount) + DrawsOnShow(old(q.subtitleFlag)) &&
         q.subtitleFlag == FlagAfterShow(old(q.subtitleFlag)))
    {
      if OutlastsSound(data.maxTime, sound.time) {
        status := Closed;
      } else {
        data.SetTime(Low16(sound.time));
        if OnScreen(q.subtitleFlag) {
          DrawOnScreen(q);
        }
      }
    }

    /** SubtitleEntry::draw(): always leave the queue's list; only the current
        subtitle is drawn, after which there is no current subtitle and the
        subtitle flag is cleared. */
    method Draw(q: SoundQueue)
      modifies q`subtitles, q`currentSubtitle, q`subtitleFlag, this`drawCount
      ensures q.subtitles == Without(old(q.subtitles), this)
      ensures old(q.currentSubtitle) == this ==>
        (q.currentSubtitle == null && q.subtitleFlag == 0 &&
         drawCount == old(drawCount) + (if data == null then 0 else 1))
      ensures old(q.currentSubtitle) != this ==>
        (q.currentSubtitle == old(q.currentSubtitle) && q.subtitleFlag == old(q.subtitleFlag) &&
         drawCount == old(drawCount))
    {
      q.subtitles := Without(q.subtitles, this);
      if this == q.currentSubtitle {
        DrawOnScreen(q);
        q.currentSubtitle := null;
        q.subtitleFlag := 0;
      }
    }

    /** SubtitleEntry::drawOnScreen(): nothing without data; otherwise clear the
        on-screen bit and draw once. */
    method DrawOnScreen(q: SoundQueue)
      modifies q`subtitleFlag, this`drawCount
      ensures data == null ==> q.subtitleFlag == old(q.subtitleFlag) && drawCount == old(drawCount)
      ensures data != null ==> q.subtitleFlag == old(q.subtitleFlag) & ClearOnScreen && drawCount == old(drawCount) + 1
    {
      if data == null {
        return;
      }
      q.subtitleFlag := q.subtitleFlag & ClearOnScreen;
      drawCount := drawCount + 1;
    }
  }
}
