/** The 68-byte save record of one sound entry
    (SoundEntry::saveLoadWithSerializer in engines/lastexpress/sound/entry.cpp):
    nine little-endian 32-bit words followed by two 16-byte name buffers. */
module SoundRecord {
  import opened SoundFlags
  import opened SoundNames

  const RecordSize: nat := 68
  const NameFieldSize: nat := 16
  /** The bound above which a saved activation delay is replaced by 0. */
  const DeltaBound: bv32 := 0x8000000

  /** syncAsUint32LE when saving. */
  function Uint32LE(x: bv32): (b: seq<bv8>)
    ensures |b| == 4
  {
    [(x & 0xFF) as bv8, ((x >> 8) & 0xFF) as bv8, ((x >> 16) & 0xFF) as bv8, ((x >> 24) & 0xFF) as bv8]
  }

  /** syncAsUint32LE when loading. */
  function ReadUint32LE(b: seq<bv8>): bv32
    requires |b| == 4
  {
    (b[0] as bv32) | ((b[1] as bv32) << 8) | ((b[2] as bv32) << 16) | ((b[3] as bv32) << 24)
  }

  lemma Uint32RoundTrip(x: bv32)
    ensures ReadUint32LE(Uint32LE(x)) == x
  {
  }

  lemma Uint32BytesRoundTrip(b: seq<bv8>)
    requires |b| == 4
    ensures Uint32LE(ReadUint32LE(b)) == b
  {
  }

  /** The byte a Common::String character occupies. */
  function ByteOf(c: char): bv8
  {
    (c as int % 256) as bv8
  }

  /** A character in 1..255 occupies a non-zero byte. */
  lemma ByteOfNonZero(c: char)
    requires 0 < c as int < 256
    ensures ByteOf(c) != 0
  {
    assert c as int % 256 == c as int;
  }

  function Bytes(s: string): (b: seq<bv8>)
    ensures |b| == |s| && forall i :: 0 <= i < |s| ==> b[i] == ByteOf(s[i])
  {
    seq(|s|, i requires 0 <= i < |s| => ByteOf(s[i]))
  }

  /** The sixteen bytes syncBytes saves from a `char name[16]` buffer after
      `strcpy(name, s.c_str())`: the C string, its NUL terminator, then whatever
      the uninitialised stack buffer held (`junk`). */
  function NameField(name: string, junk: seq<bv8>): seq<bv8>
    requires |junk| == NameFieldSize && FitsNameBuffer(name)
  {
    var c := Bytes(CStr(name));
    c + [0] + junk[|c| + 1..]
  }

  /** The bytes of a name field before its first zero byte. */
  function FieldText(f: seq<bv8>): (r: seq<bv8>)
    ensures |r| <= |f| && r == f[..|r|]
  {
    if f == [] || f[0] == 0 then [] else [f[0]] + FieldText(f[1..])
  }

  /** Latin-1 characters other than NUL: exactly the ones whose byte is non-zero. */
  predicate ByteChars(s: string)
  {
    forall i :: 0 <= i < |s| ==> 0 < s[i] as int < 256
  }

  lemma {:induction false} FieldTextOfText(c: seq<bv8>, rest: seq<bv8>)
    requires forall i :: 0 <= i < |c| ==> c[i] != 0
    ensures FieldText(c + [0] + rest) == c
  {
    if c != [] {
      assert (c + [0] + rest)[1..] == c[1..] + [0] + rest;
      FieldTextOfText(c[1..], rest);
    }
  }

  /** A saved name field is sixteen bytes, and the name can be read back from it
      up to the terminator whatever the stack held. */
  lemma NameFieldRoundTrip(name: string, junk: seq<bv8>)
    requires |junk| == NameFieldSize && FitsNameBuffer(name) && ByteChars(name)
    ensures |NameField(name, junk)| == NameFieldSize
    ensures FieldText(NameField(name, junk)) == Bytes(name)
  {
    assert NoNul(name) by {
      forall i | 0 <= i < |name| ensures name[i] != '\0' { assert 0 < name[i] as int; }
    }
    CStrOfNoNul(name);
    var c := Bytes(name);
    assert forall i :: 0 <= i < |c| ==> c[i] != 0 by {
      forall i | 0 <= i < |c| ensures c[i] != 0 {
        assert c[i] == ByteOf(name[i]);
        ByteOfNonZero(name[i]);
      }
    }
    FieldTextOfText(c, junk[|c| + 1..]);
  }

  /** syncAsUint32LE applied to a run of words. */
  function Words(ws: seq<bv32>): (b: seq<bv8>)
    ensures |b| == 4 * |ws|
  {
    if ws == [] then [] else Uint32LE(ws[0]) + Words(ws[1..])
  }

  /** The words read back from a run of bytes whose length is a multiple of four. */
  function ReadWords(b: seq<bv8>): (ws: seq<bv32>)
    requires |b| % 4 == 0
    ensures |ws| == |b| / 4
  {
    if b == [] then [] else [ReadUint32LE(b[..4])] + ReadWords(b[4..])
  }

  lemma {:induction false} ReadWordsOfWords(ws: seq<bv32>)
    ensures ReadWords(Words(ws)) == ws
  {
    if ws != [] {
      var b := Words(ws);
      assert b[..4] == Uint32LE(ws[0]);
      assert b[4..] == Words(ws[1..]);
      Uint32RoundTrip(ws[0]);
      ReadWordsOfWords(ws[1..]);
    }
  }

  lemma {:induction false} WordsOfReadWords(b: seq<bv8>)
    requires |b| % 4 == 0
    ensures Words(ReadWords(b)) == b
  {
    if b != [] {
      var ws := ReadWords(b);
      assert ws[0] == ReadUint32LE(b[..4]);
      assert ws[1..] == ReadWords(b[4..]);
      Uint32BytesRoundTrip(b[..4]);
      WordsOfReadWords(b[4..]);
      assert b == b[..4] + b[4..];
    }
  }

  /** The fields of one record, in file order. */
  datatype Record = Record(
    status: bv32, soundType: bv32, blockCount: bv32, time: bv32,
    field34: bv32, field38: bv32, entity: bv32, delta: bv32, priority: bv32,
    name1: seq<bv8>, name2: seq<bv8>)

  predicate WellFormed(r: Record)
  {
    |r.name1| == NameFieldSize && |r.name2| == NameFieldSize
  }

  /** The nine 32-bit fields, in the order they are written. */
  function WordsOf(r: Record): seq<bv32>
  {
    [r.status] + [r.soundType] + [r.blockCount] + [r.time] + [r.field34] + [r.field38] +
    [r.entity] + [r.delta] + [r.priority]
  }

  /** The bytes the nine word syncs and the two name syncs append, in order. */
  function Encode(r: Record): (b: seq<bv8>)
    requires WellFormed(r)
    ensures |b| == RecordSize
  {
    Uint32LE(r.status) + Uint32LE(r.soundType) + Uint32LE(r.blockCount) + Uint32LE(r.time) +
    Uint32LE(r.field34) + Uint32LE(r.field38) + Uint32LE(r.entity) + Uint32LE(r.delta) +
    Uint32LE(r.priority) + r.name1 + r.name2
  }

  /** The record whose nine words are `ws`, followed by the two name fields. */
  function RecordOf(ws: seq<bv32>, name1: seq<bv8>, name2: seq<bv8>): (r: Record)
    requires |ws| == 9
    ensures WordsOf(r) == ws && r.name1 == name1 && r.name2 == name2
  {
    var r := Record(ws[0], ws[1], ws[2], ws[3], ws[4], ws[5], ws[6], ws[7], ws[8], name1, name2);
    NineWords(ws);
    r
  }

  /** A run of nine words is the append chain of its words. */
  lemma NineWords(ws: seq<bv32>)
    requires |ws| == 9
    ensures ws == [ws[0]] + [ws[1]] + [ws[2]] + [ws[3]] + [ws[4]] + [ws[5]] + [ws[6]] + [ws[7]] + [ws[8]]
  {
    assert ws[..2] == [ws[0]] + [ws[1]];
    assert ws[..3] == ws[..2] + [ws[2]];
    assert ws[..4] == ws[..3] + [ws[3]];
    assert ws[..5] == ws[..4] + [ws[4]];
    assert ws[..6] == ws[..5] + [ws[5]];
    assert ws[..7] == ws[..6] + [ws[6]];
    assert ws[..8] == ws[..7] + [ws[7]];
    assert ws == ws[..8] + [ws[8]];
  }

  /** The fields the syncs read back: nine words from the first 36 bytes, then
      the two name fields. */
  function Decode(b: seq<bv8>): (r: Record)
    requires |b| == RecordSize
    ensures WellFormed(r)
  {
    RecordOf(ReadWords(b[..36]), b[36..52], b[52..68])
  }

  /** Syncing one more word appends its four bytes. */
  lemma {:induction false} WordsAppend(ws: seq<bv32>, w: bv32)
    ensures Words(ws + [w]) == Words(ws) + Uint32LE(w)
  {
    if ws != [] {
      assert (ws + [w])[1..] == ws[1..] + [w];
      WordsAppend(ws[1..], w);
    }
  }

  /** The nine words of a record are the run of words it starts with. */
  lemma EncodeWords(r: Record)
    requires WellFormed(r)
    ensures Encode(r) == Words(WordsOf(r)) + r.name1 + r.name2
  {
    var s1 := [r.status];
    var s2 := s1 + [r.soundType];
    var s3 := s2 + [r.blockCount];
    var s4 := s3 + [r.time];
    var s5 := s4 + [r.field34];
    var s6 := s5 + [r.field38];
    var s7 := s6 + [r.entity];
    var s8 := s7 + [r.delta];
    assert Words(s1) == Uint32LE(r.status);
    WordsAppend(s1, r.soundType);
    WordsAppend(s2, r.blockCount);
    WordsAppend(s3, r.time);
    WordsAppend(s4, r.field34);
    WordsAppend(s5, r.field38);
    WordsAppend(s6, r.entity);
    WordsAppend(s7, r.delta);
    WordsAppend(s8, r.priority);
  }

  /** The word at index k of a run of bytes is read from bytes 4k to 4k+4. */
  lemma {:induction false} ReadWordsAt(b: seq<bv8>, k: nat)
    requires |b| % 4 == 0 && k < |b| / 4
    ensures ReadWords(b)[k] == ReadUint32LE(b[4 * k..4 * k + 4])
  {
    if k > 0 {
      ReadWordsAt(b[4..], k - 1);
      assert b[4..][4 * (k - 1)..4 * (k - 1) + 4] == b[4 * k..4 * k + 4];
    }
  }

  /** Word k of the run the first 36 bytes hold is read from bytes 4k to 4k+4. */
  lemma WordOfRun(b: seq<bv8>, k: nat)
    requires |b| == RecordSize && k < 9
    ensures ReadWords(b[..36])[k] == ReadUint32LE(b[4 * k..4 * k + 4])
  {
    ReadWordsAt(b[..36], k);
    SliceOfSlice(b, 0, 36, 4 * k, 4 * k + 4);
  }

  /** Decoding an encoded record gives back every field. */
  lemma DecodeEncode(r: Record)
    requires WellFormed(r)
    ensures Decode(Encode(r)) == r
  {
    var b := Encode(r);
    EncodeWords(r);
    assert b[..36] == Words(WordsOf(r));
    ReadWordsOfWords(WordsOf(r));
    assert WordsOf(Decode(b)) == WordsOf(r);
    assert b[36..52] == r.name1;
    assert b[52..68] == r.name2;
  }

  /** Encoding a decoded record gives back the bytes. */
  lemma EncodeDecode(b: seq<bv8>)
    requires |b| == RecordSize
    ensures WellFormed(Decode(b)) && Encode(Decode(b)) == b
  {
    var r := Decode(b);
    EncodeWords(r);
    WordsOfReadWords(b[..36]);
    assert b == b[..36] + b[36..52] + b[52..68];
  }

  /** Decoding the record that starts at byte `p` of a longer buffer reads each
      field from its own four bytes of that buffer. */
  lemma DecodeAt(b: seq<bv8>, p: nat)
    requires p + RecordSize <= |b|
    ensures Decode(b[p..p + 68]).status == ReadUint32LE(b[p..p + 4])
    ensures Decode(b[p..p + 68]).soundType == ReadUint32LE(b[p + 4..p + 8])
    ensures Decode(b[p..p + 68]).blockCount == ReadUint32LE(b[p + 8..p + 12])
    ensures Decode(b[p..p + 68]).time == ReadUint32LE(b[p + 12..p + 16])
    ensures Decode(b[p..p + 68]).field34 == ReadUint32LE(b[p + 16..p + 20])
    ensures Decode(b[p..p + 68]).field38 == ReadUint32LE(b[p + 20..p + 24])
    ensures Decode(b[p..p + 68]).entity == ReadUint32LE(b[p + 24..p + 28])
    ensures Decode(b[p..p + 68]).delta == ReadUint32LE(b[p + 28..p + 32])
    ensures Decode(b[p..p + 68]).priority == ReadUint32LE(b[p + 32..p + 36])
    ensures Decode(b[p..p + 68]).name1 == b[p + 36..p + 52]
    ensures Decode(b[p..p + 68]).name2 == b[p + 52..p + 68]
  {
    WordAt(b, p, 0);
    WordAt(b, p, 1);
    WordAt(b, p, 2);
    WordAt(b, p, 3);
    WordAt(b, p, 4);
    WordAt(b, p, 5);
    WordAt(b, p, 6);
    WordAt(b, p, 7);
    WordAt(b, p, 8);
    SliceOfSlice(b, p, p + 68, 36, 52);
    SliceOfSlice(b, p, p + 68, 52, 68);
  }

  /** Word k of the record at byte `p` is read from bytes p+4k to p+4k+4. */
  lemma WordAt(b: seq<bv8>, p: nat, k: nat)
    requires p + RecordSize <= |b| && k < 9
    ensures ReadWords(b[p..p + 68][..36])[k] == ReadUint32LE(b[p + 4 * k..p + 4 * k + 4])
  {
    WordOfRun(b[p..p + 68], k);
    SliceOfSlice(b, p, p + 68, 4 * k, 4 * k + 4);
  }

  /** Appending eleven pieces one after the other appends their concatenation. */
  lemma AppendedInOrder(b: seq<bv8>, p1: seq<bv8>, p2: seq<bv8>, p3: seq<bv8>, p4: seq<bv8>, p5: seq<bv8>,
                        p6: seq<bv8>, p7: seq<bv8>, p8: seq<bv8>, p9: seq<bv8>, p10: seq<bv8>, p11: seq<bv8>)
    ensures b + p1 + p2 + p3 + p4 + p5 + p6 + p7 + p8 + p9 + p10 + p11 ==
            b + (p1 + p2 + p3 + p4 + p5 + p6 + p7 + p8 + p9 + p10 + p11)
  {
    var c := p1;
    assert b + p1 == b + c;
    c := c + p2;
    assert b + p1 + p2 == b + c;
    c := c + p3;
    assert b + p1 + p2 + p3 == b + c;
    c := c + p4;
    assert b + p1 + p2 + p3 + p4 == b + c;
    c := c + p5;
    assert b + p1 + p2 + p3 + p4 + p5 == b + c;
    c := c + p6;
    assert b + p1 + p2 + p3 + p4 + p5 + p6 == b + c;
    c := c + p7;
    assert b + p1 + p2 + p3 + p4 + p5 + p6 + p7 == b + c;
    c := c + p8;
    assert b + p1 + p2 + p3 + p4 + p5 + p6 + p7 + p8 == b + c;
    c := c + p9;
    assert b + p1 + p2 + p3 + p4 + p5 + p6 + p7 + p8 + p9 == b + c;
    c := c + p10;
    assert b + p1 + p2 + p3 + p4 + p5 + p6 + p7 + p8 + p9 + p10 == b + c;
    c := c + p11;
  }

  /** A slice of a slice is a slice of the original. */
  lemma SliceOfSlice<T>(b: seq<T>, p: nat, q: nat, i: nat, j: nat)
    requires p <= q <= |b| && i <= j <= q - p
    ensures b[p..q][i..j] == b[p + i..p + j]
  {
    forall k | 0 <= k < j - i
      ensures b[p..q][i..j][k] == b[p + i..p + j][k]
    {
      assert b[p..q][i..j][k] == b[p..q][i + k] == b[p + (i + k)];
    }
  }

  /** The words a load keeps, in file order: all but the delay. */
  function Kept(r: Record): seq<bv32>
  {
    [r.status, r.soundType, r.blockCount, r.time, r.field34, r.field38, r.entity, r.priority]
  }

  /** The save filter: the secondary name matches NISSND? and the category bits
      of the status word are not the menu category. */
  predicate Persisted(name2: string, status: bv32)
  {
    MatchesNisSnd(name2) && status & TypeMask != TypeMenu
  }

  /** `(uint32)_field_48 - data2`, replaced by 0 above the sanity bound. */
  function SaveDelta(field48: bv32, clock: bv32): bv32
  {
    var delta := field48 - clock;
    if delta > DeltaBound then 0 else delta
  }

  /** A pending activation at most DeltaBound ticks away is saved as the exact
      remaining wait. */
  lemma SaveDeltaFuture(field48: bv32, clock: bv32)
    requires field48 - clock <= DeltaBound
    ensures SaveDelta(field48, clock) == field48 - clock
  {
  }

  /** An activation time `d` ticks in the past (0 < d < 2^32 - DeltaBound)
      wraps above the bound and is saved as 0. */
  lemma SaveDeltaPast(clock: bv32, d: bv32)
    requires 0 < d < 0xF800_0000
    ensures SaveDelta(clock - d, clock) == 0
  {
    WrappedCancel(clock, d);
    NegationAboveBound(d);
  }

  lemma WrappedCancel(c: bv32, d: bv32)
    ensures (c - d) - c == 0 - d
  {
  }

  lemma NegationAboveBound(d: bv32)
    requires 0 < d < 0xF800_0000
    ensures 0 - d > DeltaBound
  {
  }

  /** A saved delay never exceeds the bound. */
  lemma SaveDeltaBounded(field48: bv32, clock: bv32)
    ensures SaveDelta(field48, clock) <= DeltaBound
  {
  }
}
