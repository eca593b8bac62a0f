/** Status bits, type categories and the volume/fade arithmetic of a Last Express
    sound entry (engines/lastexpress/sound/entry.cpp).  The numeric values of the
    flags come from the engine's shared header, which is not part of this model;
    the values below are the ones listed in README.md. */
module SoundFlags {

  // Volume level: the low five bits of a status word.
  const VolumeNone: bv32 := 0x0
  const VolumeFull: bv32 := 0x10
  const VolumeMask: bv32 := 0x1F

  // Status flags.
  const PlayRequested: bv32 := 0x20
  const MuteRequested: bv32 := 0x80
  const CloseRequested: bv32 := 0x200
  const Closed: bv32 := 0x400
  const CloseOnDataEnd: bv32 := 0x800
  const Looped: bv32 := 0x1000
  const DelayedActivate: bv32 := 0x8000
  const HasSubtitles: bv32 := 0x20000
  const FixedVolume: bv32 := 0x80000
  const VolumeChanging: bv32 := 0x100000
  const Fading: bv32 := 0x10000000

  // Type categories carried in the high bits of an open flag.
  const TypeNormal: bv32 := 0x0000000
  const TypeAmbient: bv32 := 0x1000000
  const TypeWalla: bv32 := 0x3000000
  const TypeLink: bv32 := 0x4000000
  const TypeNis: bv32 := 0x5000000
  const TypeIntro: bv32 := 0x6000000
  const TypeMenu: bv32 := 0x7000000
  const TypeMask: bv32 := 0x7000000

  // Priority slots (the SoundType enumeration, kSoundTypeNone = 0, kSoundType1 = 1, ...).
  const SoundTypeNone: bv32 := 0
  const SoundType1: bv32 := 1
  const SoundType2: bv32 := 2
  const SoundType3: bv32 := 3
  const SoundType4: bv32 := 4
  const SoundType5: bv32 := 5
  const SoundType7: bv32 := 7
  const SoundType8: bv32 := 8
  const SoundType9: bv32 := 9
  const SoundType10: bv32 := 10
  const SoundType11: bv32 := 11
  const SoundType13: bv32 := 13
  const SoundType14: bv32 := 14

  /** Bit 5 of the queue's flag word: volume updates also set the pitch variant. */
  const VariantMode: bv32 := 0x20

  /** The branch of setType selected by `flag & TypeMask`; every unlisted value
      falls into the default (normal) branch. */
  datatype Category = Normal | Ambient | Walla | Link | Nis | Intro | Menu

  function CategoryOf(flag: bv32): Category
  {
    var t := flag & TypeMask;
    if t == TypeAmbient then Ambient
    else if t == TypeWalla then Walla
    else if t == TypeLink then Link
    else if t == TypeNis then Nis
    else if t == TypeIntro then Intro
    else if t == TypeMenu then Menu
    else Normal
  }

  /** The slot whose current holder a special open looks up. */
  function HolderType(c: Category): bv32
    requires c != Normal
  {
    match c
    case Ambient => SoundType1
    case Walla => SoundType3
    case Link => SoundType7
    case Nis => SoundType9
    case Intro => SoundType11
    case Menu => SoundType13
  }

  /** The slot the holder is moved to when it is demoted: the holder's
      `setType(kSoundTypeN)` takes a SoundType, not a SoundFlag, so it is the
      plain assignment of slot N, not the switch of setType(SoundFlag). */
  function DemotionType(c: Category): bv32
    requires c != Normal
  {
    match c
    case Ambient => SoundType2
    case Walla => SoundType4
    case Link => SoundType8
    case Nis => SoundType10
    case Intro => SoundType14
    case Menu => SoundType14
  }

  /** The slot a special open claims for the new entry. */
  function ClaimedType(c: Category): bv32
    requires c != Normal
  {
    match c
    case Ambient => SoundType1
    case Walla => SoundType11
    case Link => SoundType7
    case Nis => SoundType9
    case Intro => SoundType11
    case Menu => SoundType13
  }

  /** Only the ambient and walla branches fade the demoted holder with update(0). */
  predicate FadesHolder(c: Category)
  {
    c == Ambient || c == Walla
  }

  /** A demoted holder leaves the slot it was found in and never lands in the
      slot the new entry claims. */
  lemma DemotionVacatesSlot(c: Category)
    requires c != Normal
    ensures DemotionType(c) != HolderType(c) && DemotionType(c) != ClaimedType(c)
  {
  }

  /** `v * 2 + 1`: the level update and updateState derive from a variant. */
  function OddLevel(v: bv32): bv32
  {
    v * 2 + 1
  }

  /** The volume-related part of an entry's state. */
  datatype Volume = Volume(status: bv32, field3C: bv32, variant: bv32)

  // SoundEntry::update(val), one field at a time.

  function UpdatedStatus(status: bv32, val: bv32): bv32
  {
    if status & Fading != 0 then status
    else if val == 0 then status | VolumeChanging | Fading
    else status | VolumeChanging
  }

  function UpdatedLevel(status: bv32, field3C: bv32, val: bv32, queueFlag: bv32): bv32
  {
    if status & Fading != 0 then field3C
    else if val == 0 then 0
    else if queueFlag & VariantMode != 0 then OddLevel(val)
    else val
  }

  function UpdatedVariant(status: bv32, variant: bv32, val: bv32, queueFlag: bv32): bv32
  {
    if status & Fading == 0 && val != 0 && queueFlag & VariantMode != 0 then val else variant
  }

  /** SoundEntry::update(val). */
  function Update(v: Volume, val: bv32, queueFlag: bv32): Volume
  {
    Volume(UpdatedStatus(v.status, val),
           UpdatedLevel(v.status, v.field3C, val, queueFlag),
           UpdatedVariant(v.status, v.variant, val, queueFlag))
  }

  /** While a fade is in progress update changes nothing. */
  lemma UpdateWhileFading(v: Volume, val: bv32, queueFlag: bv32)
    requires v.status & Fading != 0
    ensures Update(v, val, queueFlag) == v
  {
  }

  /** Otherwise VolumeChanging is set (even for value 0) and no other status bit
      except Fading changes. */
  lemma UpdateSetsVolumeChanging(v: Volume, val: bv32, queueFlag: bv32)
    requires v.status & Fading == 0
    ensures Update(v, val, queueFlag).status & VolumeChanging != 0
    ensures Update(v, val, queueFlag).status & !(VolumeChanging | Fading) ==
            v.status & !(VolumeChanging | Fading)
  {
  }

  /** update(0) zeroes field_3C and starts a fade; the variant is kept. */
  lemma UpdateZeroStartsFade(v: Volume, queueFlag: bv32)
    requires v.status & Fading == 0
    ensures Update(v, 0, queueFlag).field3C == 0
    ensures Update(v, 0, queueFlag).status & Fading != 0
    ensures Update(v, 0, queueFlag).variant == v.variant
  {
  }

  /** A non-zero value sets field_3C to 2v+1 and the variant to v in variant
      mode, and sets field_3C to v otherwise; it never starts a fade. */
  lemma UpdateNonZero(v: Volume, val: bv32, queueFlag: bv32)
    requires v.status & Fading == 0 && val != 0
    ensures Update(v, val, queueFlag).status & Fading == 0
    ensures queueFlag & VariantMode != 0 ==>
      Update(v, val, queueFlag).variant == val && Update(v, val, queueFlag).field3C == OddLevel(val)
    ensures queueFlag & VariantMode == 0 ==>
      Update(v, val, queueFlag).variant == v.variant && Update(v, val, queueFlag).field3C == val
  {
  }

  /** update(0) starts a fade, after which every further update leaves the state alone. */
  lemma UpdateZeroIdempotent(v: Volume, val: bv32, f: bv32, g: bv32)
    ensures Update(Update(v, 0, f), val, g) == Update(v, 0, f)
  {
  }

  /** updateEntryFlag routes a non-zero flag through update only in variant mode
      and for entries outside the two exempt slots. */
  predicate RoutesToUpdate(soundType: bv32, queueFlag: bv32)
  {
    queueFlag & VariantMode != 0 && soundType != SoundType9 && soundType != SoundType7
  }

  // SoundEntry::updateEntryFlag(flag), one field at a time.

  /** The status a zero flag leaves: MuteRequested set, VolumeChanging and the
      volume bits cleared. */
  function MutedStatus(status: bv32): bv32
  {
    (status | MuteRequested) & !(VolumeChanging | VolumeMask)
  }

  /** The status an unrouted flag leaves: the flag added to the status with its
      volume bits cleared. */
  function ReplacedVolume(status: bv32, flag: bv32): bv32
  {
    flag + (status & !VolumeMask)
  }

  function EntryFlagStatus(status: bv32, soundType: bv32, flag: bv32, queueFlag: bv32): bv32
  {
    if flag == 0 then MutedStatus(status)
    else if RoutesToUpdate(soundType, queueFlag) then UpdatedStatus(status, flag)
    else ReplacedVolume(status, flag)
  }

  function EntryFlagLevel(status: bv32, field3C: bv32, soundType: bv32, flag: bv32, queueFlag: bv32): bv32
  {
    if flag != 0 && RoutesToUpdate(soundType, queueFlag) then UpdatedLevel(status, field3C, flag, queueFlag)
    else field3C
  }

  function EntryFlagVariant(status: bv32, variant: bv32, soundType: bv32, flag: bv32, queueFlag: bv32): bv32
  {
    if flag == 0 then 0
    else if RoutesToUpdate(soundType, queueFlag) then UpdatedVariant(status, variant, flag, queueFlag)
    else variant
  }

  /** SoundEntry::updateEntryFlag(flag). */
  function UpdateEntryFlag(v: Volume, soundType: bv32, flag: bv32, queueFlag: bv32): Volume
  {
    Volume(EntryFlagStatus(v.status, soundType, flag, queueFlag),
           EntryFlagLevel(v.status, v.field3C, soundType, flag, queueFlag),
           EntryFlagVariant(v.status, v.variant, soundType, flag, queueFlag))
  }

  /** A non-zero volume flag that is not routed to update replaces the volume
      bits and leaves every other status bit and field alone. */
  lemma EntryFlagReplacesVolume(v: Volume, soundType: bv32, flag: bv32, queueFlag: bv32)
    requires flag != 0 && !RoutesToUpdate(soundType, queueFlag) && flag & !VolumeMask == 0
    ensures UpdateEntryFlag(v, soundType, flag, queueFlag).status & VolumeMask == flag
    ensures UpdateEntryFlag(v, soundType, flag, queueFlag).status & !VolumeMask == v.status & !VolumeMask
    ensures UpdateEntryFlag(v, soundType, flag, queueFlag).field3C == v.field3C
    ensures UpdateEntryFlag(v, soundType, flag, queueFlag).variant == v.variant
  {
  }

  /** A routed flag behaves exactly like update(flag). */
  lemma EntryFlagRouted(v: Volume, soundType: bv32, flag: bv32, queueFlag: bv32)
    requires flag != 0 && RoutesToUpdate(soundType, queueFlag)
    ensures UpdateEntryFlag(v, soundType, flag, queueFlag) == Update(v, flag, queueFlag)
  {
  }

  /** A zero flag mutes: variant 0, MuteRequested set, VolumeChanging and the
      volume bits cleared, every other bit and field_3C kept. */
  lemma EntryFlagZeroMutes(v: Volume, soundType: bv32, queueFlag: bv32)
    ensures UpdateEntryFlag(v, soundType, 0, queueFlag).variant == 0
    ensures UpdateEntryFlag(v, soundType, 0, queueFlag).field3C == v.field3C
    ensures UpdateEntryFlag(v, soundType, 0, queueFlag).status & MuteRequested != 0
    ensures UpdateEntryFlag(v, soundType, 0, queueFlag).status & (VolumeChanging | VolumeMask) == 0
    ensures UpdateEntryFlag(v, soundType, 0, queueFlag).status & !(MuteRequested | VolumeChanging | VolumeMask) ==
            v.status & !(MuteRequested | VolumeChanging | VolumeMask)
  {
  }

  /** updateState shifts the volume into the variant only in variant mode and
      outside the slots 9, 7 and 5. */
  predicate ShiftsVariant(soundType: bv32, queueFlag: bv32)
  {
    queueFlag & VariantMode != 0 && soundType != SoundType9 && soundType != SoundType7 && soundType != SoundType5
  }

  // SoundEntry::updateState(), one field at a time.

  /** The volume bits replaced by `2v+1`, where v is their old value. */
  function ShiftedVolume(status: bv32): bv32
  {
    (status & !VolumeMask) | OddLevel(status & VolumeMask)
  }

  function StateStatus(status: bv32, soundType: bv32, queueFlag: bv32): bv32
  {
    (if ShiftsVariant(soundType, queueFlag) then ShiftedVolume(status) else status) | PlayRequested
  }

  function StateVariant(status: bv32, variant: bv32, soundType: bv32, queueFlag: bv32): bv32
  {
    if ShiftsVariant(soundType, queueFlag) then status & VolumeMask else variant
  }

  /** SoundEntry::updateState(). */
  function UpdateState(v: Volume, soundType: bv32, queueFlag: bv32): Volume
  {
    Volume(StateStatus(v.status, soundType, queueFlag), v.field3C,
           StateVariant(v.status, v.variant, soundType, queueFlag))
  }

  /** updateState always requests play; outside variant mode that is all it does. */
  lemma UpdateStateRequestsPlay(v: Volume, soundType: bv32, queueFlag: bv32)
    ensures UpdateState(v, soundType, queueFlag).status & PlayRequested != 0
    ensures UpdateState(v, soundType, queueFlag).field3C == v.field3C
    ensures !ShiftsVariant(soundType, queueFlag) ==>
      UpdateState(v, soundType, queueFlag) == v.(status := v.status | PlayRequested)
  {
  }

  /** In variant mode the old volume becomes the variant, the volume bits hold
      the low bits of 2v+1, and every bit above PlayRequested is kept. */
  lemma UpdateStateShifts(v: Volume, soundType: bv32, queueFlag: bv32)
    requires ShiftsVariant(soundType, queueFlag)
    ensures UpdateState(v, soundType, queueFlag).variant == v.status & VolumeMask
    ensures UpdateState(v, soundType, queueFlag).status & !0x3F == v.status & !0x3F
    ensures UpdateState(v, soundType, queueFlag).status & VolumeMask ==
            OddLevel(v.status & VolumeMask) & VolumeMask
  {
  }

  /** SoundEntry::setupStatus(flag). */
  function SetupStatus(flag: bv32): bv32
  {
    var muted := if flag & VolumeMask == VolumeNone then flag | MuteRequested else flag;
    if muted & Looped == 0 then muted | CloseOnDataEnd else muted
  }

  /** setupStatus keeps the open flag, adds MuteRequested exactly when the volume
      bits are zero and CloseOnDataEnd exactly when Looped is clear. */
  lemma SetupStatusBits(flag: bv32)
    ensures SetupStatus(flag) & MuteRequested != 0 <==>
            (flag & VolumeMask == VolumeNone || flag & MuteRequested != 0)
    ensures SetupStatus(flag) & CloseOnDataEnd != 0 <==>
            (flag & Looped == 0 || flag & CloseOnDataEnd != 0)
    ensures SetupStatus(flag) & !(MuteRequested | CloseOnDataEnd) ==
            flag & !(MuteRequested | CloseOnDataEnd)
  {
  }
}
