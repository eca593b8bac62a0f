/** The bodies of SoundEntry::update, updateEntryFlag and updateState in
    engines/lastexpress/sound/entry.cpp, step by step on the volume fields;
    each is proved against the field functions of SoundFlags. */
module SoundVolume {
  import opened SoundFlags

  /** The body of SoundEntry::update(val), on the three volume fields. */
  method ApplyUpdate(status0: bv32, field3C0: bv32, variant0: bv32, val: bv32, queueFlag: bv32)
    returns (status: bv32, field3C: bv32, variant: bv32)
    ensures status == UpdatedStatus(status0, val)
    ensures field3C == UpdatedLevel(status0, field3C0, val, queueFlag)
    ensures variant == UpdatedVariant(status0, variant0, val, queueFlag)
  {
    status, field3C, variant := status0, field3C0, variant0;
    if status & Fading != 0 {
      return;
    }
    var value2 := val;
    status := status | VolumeChanging;
    if val != 0 {
      if queueFlag & VariantMode != 0 {
        variant := val;
        value2 := OddLevel(val);
      }
      field3C := value2;
    } else {
      field3C := 0;
      status := status | Fading;
    }
  }

  /** The body of SoundEntry::updateEntryFlag(flag), on the three volume fields. */
  method ApplyEntryFlag(status0: bv32, field3C0: bv32, variant0: bv32, soundType: bv32, flag: bv32, queueFlag: bv32)
    returns (status: bv32, field3C: bv32, variant: bv32)
    ensures status == EntryFlagStatus(status0, soundType, flag, queueFlag)
    ensures field3C == EntryFlagLevel(status0, field3C0, soundType, flag, queueFlag)
    ensures variant == EntryFlagVariant(status0, variant0, soundType, flag, queueFlag)
  {
    status, field3C, variant := status0, field3C0, variant0;
    if flag != 0 {
      if RoutesToUpdate(soundType, queueFlag) {
        status, field3C, variant := ApplyUpdate(status, field3C, variant, flag, queueFlag);
      } else {
        status := ReplaceVolume(status, flag);
      }
    } else {
      status, variant := Mute(status);
    }
  }

  /** The unrouted branch of updateEntryFlag. */
  method ReplaceVolume(status0: bv32, flag: bv32) returns (status: bv32)
    ensures status == ReplacedVolume(status0, flag)
  {
    status := flag + (status0 & !VolumeMask);
  }

  /** The zero-flag branch of updateEntryFlag. */
  method Mute(status0: bv32) returns (status: bv32, variant: bv32)
    ensures status == MutedStatus(status0) && variant == 0
  {
    variant := 0;
    status := status0 | MuteRequested;
    status := status & !(VolumeChanging | VolumeMask);
  }

  /** The body of SoundEntry::updateState(), on the status word and the variant. */
  method ApplyState(status0: bv32, variant0: bv32, soundType: bv32, queueFlag: bv32)
    returns (status: bv32, variant: bv32)
    ensures status == StateStatus(status0, soundType, queueFlag)
    ensures variant == StateVariant(status0, variant0, soundType, queueFlag)
  {
    status, variant := status0, variant0;
    if ShiftsVariant(soundType, queueFlag) {
      status, variant := ShiftVolume(status);
    }
    status := status | PlayRequested;
  }

  /** The variant-mode branch of updateState: the volume bits move to the
      variant and are replaced by 2v+1. */
  method ShiftVolume(status0: bv32) returns (status: bv32, variant: bv32)
    ensures status == ShiftedVolume(status0) && variant == status0 & VolumeMask
  {
    var v := status0 & VolumeMask;
    status := status0 & !VolumeMask;
    variant := v;
    status := status | OddLevel(v);
  }
}
