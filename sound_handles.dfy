/** The collaborators entry.cpp calls but whose code is not part of this model:
    archive streams, the StreamedSound mixer handle, the SubtitleManager data,
    the resource archive and Common::Serializer.  Each is reduced to the state
    entry.cpp observes, plus ghost counters that record the calls made on it. */
module SoundHandles {
  import opened SoundRecord

  /** A stream returned by getArchive; `freed` records its deletion. */
  class Stream {
    const name: string
    var pos: nat
    ghost var freed: bool

    constructor (name: string)
      ensures this.name == name && pos == 0 && !freed
    {
      this.name := name;
      pos := 0;
      freed := false;
    }

    method Seek(p: nat)
      modifies this`pos
      ensures pos == p
    {
      pos := p;
    }

    /** SAFE_DELETE of a stream: a stream can be deleted only once. */
    method Free()
      requires !freed
      modifies this`freed
      ensures freed
    {
      freed := true;
    }
  }

  /** The mixer handle.  `loadCount`, `stopped` and `deleted` record the calls
      entry.cpp makes; `finished` is what isFinished reports. */
  class StreamedSound {
    var source: Stream?
    var filterId: bv32
    var finished: bool
    ghost var loadCount: nat
    ghost var stopped: bool
    ghost var deleted: bool

    constructor ()
      ensures source == null && filterId == 0 && !finished
      ensures loadCount == 0 && !stopped && !deleted
    {
      source := null;
      filterId := 0;
      finished := false;
      loadCount := 0;
      stopped := false;
      deleted := false;
    }

    method Load(s: Stream, id: bv32)
      modifies this`source, this`filterId, this`loadCount
      ensures source == s && filterId == id && loadCount == old(loadCount) + 1
    {
      source := s;
      filterId := id;
      loadCount := loadCount + 1;
    }

    method SetFilterId(id: bv32)
      modifies this`filterId
      ensures filterId == id
    {
      filterId := id;
    }

    method Stop()
      modifies this`stopped
      ensures stopped
    {
      stopped := true;
    }

    /** Deleting the handle disposes of the stream it was loaded from. */
    method Delete()
      requires !deleted && (source != null ==> !source.freed)
      modifies this`deleted, source
      ensures deleted && source == old(source)
      ensures source != null ==> source.freed && source.pos == old(source.pos)
    {
      if source != null {
        source.Free();
      }
      deleted := true;
    }
  }

  /** The loaded SubtitleManager: its `maxTime` and the time last set on it. */
  class SubtitleData {
    const maxTime: bv32
    var time: bv16

    constructor (maxTime: bv32)
      ensures this.maxTime == maxTime && time == 0
    {
      this.maxTime := maxTime;
      time := 0;
    }

    method SetTime(t: bv16)
      modifies this`time
      ensures time == t
    {
      time := t;
    }
  }

  /** The resource archive: the files it holds and the subtitle length
      (`getMaxTime`) the SubtitleManager reads from each. */
  datatype Resources = Resources(files: set<string>, maxTimeOf: string -> bv32)

  /** The archive loadStream falls back to. */
  const DefaultArchive: string := "DEFAULT.SND"

  datatype Option<T> = None | Some(value: T)

  /** The archive loadStream ends up opening: the named one if the resources
      hold it, otherwise DEFAULT.SND if they hold that, otherwise none. */
  function ArchiveChoice(res: Resources, name: string): (r: Option<string>)
    ensures r.Some? ==> r.value in res.files
    ensures r.None? <==> name !in res.files && DefaultArchive !in res.files
    ensures name in res.files ==> r == Some(name)
    ensures name !in res.files && r.Some? ==> r.value == DefaultArchive
  {
    if name in res.files then Some(name)
    else if DefaultArchive in res.files then Some(DefaultArchive)
    else None
  }

  /** Common::Serializer: a byte buffer and a read position; when saving, every
      sync appends, when loading, every sync consumes.  Each sync is a method per
      direction, since the direction is fixed for the serializer's lifetime. */
  class Serializer {
    const loading: bool
    var bytes: seq<bv8>
    var pos: nat

    constructor (loading: bool, bytes: seq<bv8>)
      ensures this.loading == loading && this.bytes == bytes && pos == 0
    {
      this.loading := loading;
      this.bytes := bytes;
      pos := 0;
    }

    /** syncAsUint32LE when saving: the word's four bytes are appended. */
    method SaveWord(x: bv32)
      requires !loading
      modifies this`bytes
      ensures bytes == old(bytes) + Uint32LE(x)
    {
      bytes := bytes + Uint32LE(x);
    }

    /** syncAsUint32LE when loading: the next four bytes are read. */
    method LoadWord() returns (y: bv32)
      requires loading && pos + 4 <= |bytes|
      modifies this`pos
      ensures pos == old(pos) + 4 && y == ReadUint32LE(bytes[old(pos)..old(pos) + 4])
    {
      y := ReadUint32LE(bytes[pos..pos + 4]);
      pos := pos + 4;
    }

    /** syncBytes when saving: the buffer is appended. */
    method SaveBytes(b: seq<bv8>)
      requires !loading
      modifies this`bytes
      ensures bytes == old(bytes) + b
    {
      bytes := bytes + b;
    }

    /** syncBytes when loading into a buffer of `n` bytes: the next `n` bytes are
        read. */
    method LoadBytes(n: nat) returns (r: seq<bv8>)
      requires loading && pos + n <= |bytes|
      modifies this`pos
      ensures pos == old(pos) + n && r == bytes[old(pos)..old(pos) + n]
    {
      r := bytes[pos..pos + n];
      pos := pos + n;
    }
  }
}
