# Sound entries of The Last Express and the Illusions menu system, in Dafny

This project models two parts of the ScummVM game engines and proves properties
of the models.

**The Last Express sound entries** (`engines/lastexpress/sound/entry.cpp`).
A `SoundEntry` holds a status word of bit flags, a priority slot (its type), a
volume level and pitch variant, an entity, an activation time, two names and the
handles of its archive stream, its mixer stream and its subtitle. The model covers:

- opening an entry: `setType` with its demotion of the slot's current holder, then `setupStatus` and `loadStream`;
- the volume and fade arithmetic of `update`, `updateEntryFlag` and `updateState`;
- the stream lifecycle of `play`, `isFinished` and `reset`;
- delayed activation and the subtitle name in `updateSound`;
- the 68-byte little-endian save record of `saveLoadWithSerializer`;
- the subtitle bookkeeping of `SubtitleEntry` against the sound queue.

The sound queue, the resource archive, the mixer handle (`StreamedSound`), the
subtitle data and the serializer are reduced to the state `entry.cpp` reads and
writes (module `SoundHandles` and class `SoundQueue`). Ghost counters record the
calls made on them: loads, stops, deletions, frees and draws.

The numeric values of the status flags, type categories and entity indices are
declared in `engines/lastexpress/shared.h`, which is not part of this model. The
model uses these values:

- volume mask 0x1F;
- PlayRequested 0x20, MuteRequested 0x80, CloseRequested 0x200, Closed 0x400;
- CloseOnDataEnd 0x800, Looped 0x1000, DelayedActivate 0x8000, HasSubtitles 0x20000;
- FixedVolume 0x80000, VolumeChanging 0x100000, Fading 0x10000000;
- type categories 0x1000000 × k: Ambient 1, Walla 3, Link 4, NIS 5, Intro 6, Menu 7; type mask 0x7000000;
- SoundType values kSoundTypeNone = 0, kSoundType1 = 1, and so on;
- entities: player 0, train 32, steam 0x80.

The proofs depend on this bit layout, not only on the values being distinct:
- each status flag is a single bit, disjoint from the volume mask 0x1F and from the others;
- the variant shift of updateState relies on the mask being the low five bits;
- a demoted holder is moved straight to a SoundType slot (2, 4, 8, 10 or 14), which is never the slot it was found in nor the one the new entry claims.

**The Illusions menu system** (`engines/illusions/menusystem.cpp`).
`BaseMenuSystem` keeps a stack of open menus and the active menu. For the active
menu it keeps the scroll window: header line count, first and last listed item,
and the number of items actually drawn. It also keeps the hovered item, the
texts on screen and the mouse cursor position. For the calling script it keeps
the choice offsets, the choice variable and the caller thread id. Finally it
keeps an inactivity timeout. The model covers:

- the stack operations `enterSubMenu`, `leaveSubMenu`, `leaveMenu`, `openMenu` and `closeMenu`;
- `activateMenu` and the line counting of `drawMenuText` over a `MenuTextBuilder`;
- the integer hit-testing of `calcMenuItemRect`, `calcMenuItemMousePos` and `calcMenuItemIndexAtPoint` (module `MenuGeometry`, pure functions);
- click dispatch to the four menu actions;
- the hover logic of `update`;
- the timeout state machine of `setTimeOutDuration` and `updateTimeOut` (pure `Timer` functions, with methods proved against them).

Several collaborators become parameters of the model:

- The screen text is a function from an insert request to where the text lands: whether it fit, where the part that did not fit starts, and the box position and width.
- The font's line height is a function of the font id.
- The time and the timer's expiry test are method parameters, and so is the polled input.
- Thread notification is a recorded list of notified thread ids.
- The game's menu table (`getMenuById`) is a map.

## Model

| member | source | states |
|---|---|---|
| SoundFlags.CategoryOf | engines/lastexpress/sound/entry.cpp:154-222 | the branch setType takes for `flag & kSoundTypeMask`; every unlisted value falls into the normal branch |
| SoundFlags.DemotionVacatesSlot | engines/lastexpress/sound/entry.cpp:161-221 | the slot a demoted holder is moved to differs from the slot it was found in and from the slot the new entry claims |
| SoundFlags.UpdateWhileFading | engines/lastexpress/sound/entry.cpp:247-249 | update changes nothing while Fading is set |
| SoundFlags.UpdateSetsVolumeChanging | engines/lastexpress/sound/entry.cpp:251-253 | otherwise VolumeChanging is set, even for value 0, and no status bit other than VolumeChanging and Fading changes |
| SoundFlags.UpdateZeroStartsFade | engines/lastexpress/sound/entry.cpp:262-265 | update(0) zeroes field_3C, sets Fading and keeps the variant |
| SoundFlags.UpdateNonZero | engines/lastexpress/sound/entry.cpp:255-261 | a non-zero value gives variant v and field_3C 2v+1 in variant mode, field_3C v otherwise, and never starts a fade |
| SoundFlags.UpdateZeroIdempotent | engines/lastexpress/sound/entry.cpp:247-266 | after update(0) every further update leaves the volume state alone |
| SoundFlags.EntryFlagReplacesVolume | engines/lastexpress/sound/entry.cpp:309-313 | a non-zero volume level (a flag with no bits above the volume mask) that is not routed to update replaces the volume bits and keeps every other status bit, field_3C and the variant |
| SoundFlags.EntryFlagRouted | engines/lastexpress/sound/entry.cpp:310-311 | in variant mode and outside slots 9 and 7, updateEntryFlag is exactly update(flag) |
| SoundFlags.EntryFlagZeroMutes | engines/lastexpress/sound/entry.cpp:314-318 | a zero flag sets the variant to 0, sets MuteRequested, clears VolumeChanging and the volume bits, and keeps every other bit and field_3C |
| SoundFlags.UpdateStateRequestsPlay | engines/lastexpress/sound/entry.cpp:321-334 | updateState always sets PlayRequested; outside variant mode, or for slots 9, 7 and 5, that is all it does |
| SoundFlags.UpdateStateShifts | engines/lastexpress/sound/entry.cpp:322-330 | in variant mode the old volume bits become the variant and are replaced by the low bits of 2v+1; the bits above PlayRequested are kept |
| SoundFlags.SetupStatusBits | engines/lastexpress/sound/entry.cpp:225-232 | setupStatus keeps the flag and adds MuteRequested exactly when the volume bits are zero, and CloseOnDataEnd exactly when Looped is clear |
| SoundVolume.ApplyUpdate | engines/lastexpress/sound/entry.cpp:247-266 | the step-by-step body of update computes the three field functions of SoundFlags.Update |
| SoundVolume.ApplyEntryFlag | engines/lastexpress/sound/entry.cpp:308-319 | the body of updateEntryFlag computes the field functions of SoundFlags.UpdateEntryFlag |
| SoundVolume.ReplaceVolume | engines/lastexpress/sound/entry.cpp:313 | the unrouted branch adds the flag to the status with its volume bits cleared |
| SoundVolume.Mute | engines/lastexpress/sound/entry.cpp:315-317 | the zero-flag branch: variant 0, MuteRequested set, VolumeChanging and the volume bits cleared |
| SoundVolume.ApplyState | engines/lastexpress/sound/entry.cpp:321-334 | the body of updateState computes the field functions of SoundFlags.UpdateState |
| SoundVolume.ShiftVolume | engines/lastexpress/sound/entry.cpp:324-329 | the variant-mode branch moves the volume bits to the variant and puts 2v+1 in their place |
| SoundNames.CStr | engines/lastexpress/sound/entry.cpp:281 | the C string of a name is its longest NUL-free prefix |
| SoundNames.CStrOfNoNul | engines/lastexpress/sound/entry.cpp:281 | a name without an embedded NUL is its own C string |
| SoundNames.SubtitleStemShape | engines/lastexpress/sound/entry.cpp:281-287 | the name passed to showSubtitle is the C string less its last four characters, or all of it when it has at most four |
| SoundNames.StemStripsExtension | engines/lastexpress/sound/entry.cpp:281-287 | for a name that ends in a four-character extension, the stem is the base name |
| SoundNames.NisSndMatches | engines/lastexpress/sound/entry.cpp:369 | NISSND followed by any one non-NUL character matches `NISSND?` |
| SoundNames.NisSndLength | engines/lastexpress/sound/entry.cpp:369 | a NUL-free name matches `NISSND?` only when it is seven characters long and starts with NISSND |
| SoundNames.SixteenCharNameOverflows | engines/lastexpress/sound/entry.cpp:366-390 | a sixteen-character name passes the `size() <= 16` guard and strcpy then writes seventeen bytes into the sixteen-byte buffer |
| SoundNames.FitsNameBufferNoOverflow | engines/lastexpress/sound/entry.cpp:366-390 | under the stricter bound of fifteen characters the copy and its terminator always fit |
| SoundRecord.Uint32RoundTrip | engines/lastexpress/sound/entry.cpp:370 | a little-endian word read back from its four bytes is the word written |
| SoundRecord.Uint32BytesRoundTrip | engines/lastexpress/sound/entry.cpp:370 | writing a word read from four bytes gives back the bytes |
| SoundRecord.NameFieldRoundTrip | engines/lastexpress/sound/entry.cpp:385-391 | a saved name buffer is sixteen bytes and the name can be read back from it up to its terminator |
| SoundRecord.ReadWordsOfWords | engines/lastexpress/sound/entry.cpp:370-383 | a run of words written and read back gives back the words |
| SoundRecord.WordsOfReadWords | engines/lastexpress/sound/entry.cpp:370-383 | a run of bytes read as words and written again gives back the bytes |
| SoundRecord.EncodeWords | engines/lastexpress/sound/entry.cpp:370-391 | a record's bytes are its nine words in order, then the two name buffers |
| SoundRecord.DecodeEncode | engines/lastexpress/sound/entry.cpp:370-391 | decoding the 68 bytes of a saved record gives back every field |
| SoundRecord.EncodeDecode | engines/lastexpress/sound/entry.cpp:370-391 | encoding a decoded 68-byte record gives back the bytes |
| SoundRecord.DecodeAt | engines/lastexpress/sound/entry.cpp:370-391 | the record loaded at position p reads each field from its own four bytes, or sixteen for a name |
| SoundRecord.SaveDeltaFuture | engines/lastexpress/sound/entry.cpp:378-381 | an activation at most 0x8000000 ticks away is saved as the exact remaining wait |
| SoundRecord.SaveDeltaPast | engines/lastexpress/sound/entry.cpp:378-381 | an activation time already passed wraps above the bound and is saved as 0 |
| SoundRecord.SaveDeltaBounded | engines/lastexpress/sound/entry.cpp:378-381 | a saved delay never exceeds 0x8000000 |
| SoundHandles.ArchiveChoice | engines/lastexpress/sound/entry.cpp:238-244 | the named archive if it exists, else DEFAULT.SND if that exists, else none |
| SoundHandles.StreamedSound.Delete | engines/lastexpress/sound/entry.cpp:345-346 | deleting the mixer handle frees the stream it was loaded from |
| SoundEntries.FirstIndex | engines/lastexpress/sound/entry.cpp:162-215 | the index of the first entry of the type, and no earlier entry has it |
| SoundEntries.FirstOfType | engines/lastexpress/sound/entry.cpp:162-215 | getEntry returns an entry of the queue holding the type, or null |
| SoundEntries.FirstOfTypeNone | engines/lastexpress/sound/entry.cpp:162-215 | getEntry returns null exactly when no entry holds the type |
| SoundEntries.Without | engines/lastexpress/sound/entry.cpp:464 | removing a subtitle from the list leaves every other subtitle and no copy of it |
| SoundEntries.WithoutAppended | engines/lastexpress/sound/entry.cpp:355-359 | registering a new subtitle and removing it again gives back the list |
| SoundEntries.CloseSignalOf | engines/lastexpress/sound/entry.cpp:110-115 | close tells nothing to the player and the train, restarts the steam loop for steam, and sends kActionEndSound to every other entity |
| SoundEntries.WriteRecord | engines/lastexpress/sound/entry.cpp:370-391 | saving appends exactly the encoded record |
| SoundEntries.ReadRecord | engines/lastexpress/sound/entry.cpp:370-391 | loading consumes 68 bytes and yields their decoding |
| SoundEntries.Activated | engines/lastexpress/sound/entry.cpp:279-280 | activation sets PlayRequested, clears DelayedActivate and keeps every other bit |
| SoundEntries.WithSubtitles | engines/lastexpress/sound/entry.cpp:361 | HasSubtitles is set and every other bit is kept |
| SoundEntries.FlagAfterShow | engines/lastexpress/sound/entry.cpp:453-454 | after setupAndDraw the on-screen bit of the subtitle flag is clear and the rest is kept |
| SoundEntries.DrawsOnShow | engines/lastexpress/sound/entry.cpp:453-454 | setupAndDraw draws once exactly when the on-screen bit is set |
| SoundEntries.SoundEntry.constructor | engines/lastexpress/sound/entry.cpp:44-68 | every field starts at zero or none, the entity is the player, and the entry is finished |
| SoundEntries.SoundEntry.IsFinished | engines/lastexpress/sound/entry.cpp:142-151 | finished without a stream, not finished while not queued, otherwise what the mixer reports |
| SoundEntries.SoundEntry.Update | engines/lastexpress/sound/entry.cpp:247-266 | the volume fields become SoundFlags.Update of the old ones |
| SoundEntries.SoundEntry.SetType | engines/lastexpress/sound/entry.cpp:153-223 | a normal open takes the counter, which moves on by one; a special open claims its slot, leaves the counter, and moves the slot's old holder to its demotion slot; only the holders' type and volume fields change, and the entry's own volume changes only when it was itself a faded holder |
| SoundEntries.SoundEntry.Claim | engines/lastexpress/sound/entry.cpp:176-221 | the walla, link, NIS, intro and menu branches claim slots 11, 7, 9, 11 and 13 and leave the counter; the old holder of slot 3, 7, 9, 11 or 13 moves to slot 4, 8, 10, 14 or 14 and, for walla, is faded |
| SoundEntries.SoundEntry.ClaimAmbient | engines/lastexpress/sound/entry.cpp:161-174 | the holder of slot 2 is faded and keeps its slot, the holder of slot 1 moves to slot 2 and is faded, the counter is left, and the entry claims slot 1 |
| SoundEntries.SoundEntry.Demote | engines/lastexpress/sound/entry.cpp:166-170 | the demoted holder is moved to the category's demotion slot, and only for ambient and walla opens is it faded with update(0) |
| SoundEntries.SoundEntry.SetupStatus | engines/lastexpress/sound/entry.cpp:225-232 | the status becomes SoundFlags.SetupStatus of the flag |
| SoundEntries.SoundEntry.LoadStream | engines/lastexpress/sound/entry.cpp:234-245 | the name is stored and the stream is the archive ArchiveChoice picks; without one the status is exactly CloseRequested |
| SoundEntries.SoundEntry.Open | engines/lastexpress/sound/entry.cpp:86-91 | the priority and secondary name are stored, the slots and the counter are as setType leaves them (a demoted holder moves to its demotion slot), the stream is loaded, and the status is setupStatus(flag) or exactly CloseRequested |
| SoundEntries.SoundEntry.Prepare | engines/lastexpress/sound/entry.cpp:87-90 | the priority, setupStatus(flag) and loadStream(name) of open |
| SoundEntries.SoundEntry.Close | engines/lastexpress/sound/entry.cpp:93-116 | CloseRequested is set and the entity's signal is CloseSignalOf; the subtitle leaves the queue's list, and if it is the current one it is drawn, the current subtitle cleared and the subtitle flag zeroed; only its draw count may change |
| SoundEntries.SoundEntry.Play | engines/lastexpress/sound/entry.cpp:118-140 | fails without a stream; the first play seeks to 0 and loads once with the volume bits as filter; a later play only sets the filter; the handle's finished and stopped state is kept (false for a new handle) |
| SoundEntries.SoundEntry.Reset | engines/lastexpress/sound/entry.cpp:336-351 | CloseRequested is set and the entity becomes the player; a stream never handed to the mixer is freed directly, otherwise the mixer handle is stopped and deleted and its source freed; afterwards no stream is held and the entry is finished |
| SoundEntries.SoundEntry.SavedRecord | engines/lastexpress/sound/entry.cpp:370-391 | the record holds the nine fields in file order, the bounded delay and the two sixteen-byte name buffers |
| SoundEntries.SoundEntry.SaveLoad | engines/lastexpress/sound/entry.cpp:365-393 | only NISSND? entries whose status category is not Menu take part; saving appends the encoded record, loading consumes one and keeps all words except the delay |
| SoundEntries.SoundEntry.Load | engines/lastexpress/sound/entry.cpp:370-391 | the loading direction keeps the eight synced words and drops the delay and both names |
| SoundEntries.SoundEntry.Synced | engines/lastexpress/sound/entry.cpp:370-383 | the eight fields that load writes back |
| SoundEntries.SoundEntry.UpdateEntryFlag | engines/lastexpress/sound/entry.cpp:308-319 | the volume fields become SoundFlags.UpdateEntryFlag of the old ones |
| SoundEntries.SoundEntry.UpdateState | engines/lastexpress/sound/entry.cpp:321-334 | the status and variant become SoundFlags.UpdateState of the old ones |
| SoundEntries.SoundEntry.ShowSubtitle | engines/lastexpress/sound/entry.cpp:353-363 | without the subtitle file nothing is kept and the queue is as before; with it the new subtitle is registered and kept, HasSubtitles is set, and the subtitle has data exactly when none was loaded before, in which case it becomes the current subtitle and bit 2 of the subtitle flag is set; otherwise the current subtitle and the flag are kept |
| SoundEntries.SoundEntry.UpdateSound | engines/lastexpress/sound/entry.cpp:268-306 | false exactly for a closed entry; a due delayed entry is activated and, when the file `stem + ".SBE"` exists, shows a new subtitle of that name for this entry, with the queue's current subtitle and flag as ShowSubtitle leaves them, and its volume fields kept; outside that case the current subtitle and flag are untouched; an active entry follows its entity's volume outside variant mode, without FixedVolume and for entities other than the player below 0x80 |
| SoundEntries.SubtitleEntry.constructor | engines/lastexpress/sound/entry.cpp:398-402 | status 0, no sound entry and no data |
| SoundEntries.SubtitleEntry.Load | engines/lastexpress/sound/entry.cpp:412-429 | always registers and names the file `name + ".SBE"`; a missing file means status Closed; when bit 2 of the subtitle flag is set no data loads |
| SoundEntries.SubtitleEntry.LoadData | engines/lastexpress/sound/entry.cpp:431-437 | the data is loaded, bit 2 of the subtitle flag is set and this becomes the current subtitle |
| SoundEntries.SubtitleEntry.SetupAndDraw | engines/lastexpress/sound/entry.cpp:439-460 | fails without a sound entry; otherwise loads the data if needed, closes a subtitle that outlasts the sound without touching its time, or sets its time to the sound's low 16 bits and draws it when the on-screen bit is set; it becomes the current subtitle |
| SoundEntries.SubtitleEntry.Present | engines/lastexpress/sound/entry.cpp:448-455 | the close-or-draw decision of setupAndDraw: Closed with time, flag and draw count kept, or the time set to the sound's low 16 bits and a draw when the on-screen bit is set |
| SoundEntries.SubtitleEntry.Draw | engines/lastexpress/sound/entry.cpp:462-472 | always leaves the queue's list; only the current subtitle is drawn, when it has data, after which there is no current subtitle and the flag is 0 |
| SoundEntries.SubtitleEntry.DrawOnScreen | engines/lastexpress/sound/entry.cpp:474-480 | nothing without data; otherwise the on-screen bit is cleared and one draw is made |
| MenuGeometry.TruncDiv | engines/illusions/menusystem.cpp:205 | C++ division truncates toward zero: quotient and remainder bounds for both signs |
| MenuGeometry.ItemRect | engines/illusions/menusystem.cpp:171-188 | the rectangle of a drawn line: as wide as the text, one line high, `index + lines - 1` line heights below the text origin |
| MenuGeometry.ItemsAdjoin | engines/illusions/menusystem.cpp:182-187 | each line's rectangle starts where the previous one ends |
| MenuGeometry.ItemMousePos | engines/illusions/menusystem.cpp:190-199 | fails exactly when the index lies outside [first, first + count) with the upper bound taken modulo 2^32; otherwise the point is at the left edge of the item's rectangle, half a line height below its top |
| MenuGeometry.IndexAtPoint | engines/illusions/menusystem.cpp:201-213 | a reported index is at most field54 and at most `first + count - 1` in unsigned arithmetic, and the point lies in that item's rectangle |
| MenuGeometry.IndexAtPointIff | engines/illusions/menusystem.cpp:201-213 | the hit test reports item i exactly when i is reachable and the point lies in its rectangle |
| MenuGeometry.MousePosHitsItem | engines/illusions/menusystem.cpp:190-213 | hit-testing the point that calcMenuItemMousePos gives for a listed, drawn item reports that item |
| MenuGeometry.DivInBand | engines/illusions/menusystem.cpp:205 | an offset in the k-th band of line height h divides to k |
| MenuText.Widen | engines/illusions/menusystem.cpp:534 | a signed char stored into a 16-bit unit keeps its low byte and sign-extends |
| MenuText.Units | engines/illusions/menusystem.cpp:532-535 | one unit per character, each the widened character |
| MenuText.CountCRAppend | engines/illusions/menusystem.cpp:427-430 | counting line breaks up to the NUL runs through a NUL-free prefix into what follows |
| MenuText.UnitsPlain | engines/illusions/menusystem.cpp:532-535 | a string without NUL or carriage return contributes no NUL and no line break |
| MenuText.MenuTextBuilder.AppendString | engines/illusions/menusystem.cpp:532-535 | the position advances by the string's length and the string's units follow what was there |
| MenuText.MenuTextBuilder.AppendNewLine | engines/illusions/menusystem.cpp:537-539 | one carriage return is appended and the position advances by one |
| MenuText.MenuTextBuilder.Finalize | engines/illusions/menusystem.cpp:541-543 | a NUL is written just past the contents, which stay as they were, and the position does not move |
| MenuData.RequestOf | engines/illusions/menusystem.cpp:409-425 | the insertText call: the menu's font, a 300 by 180 box, position (4, 4) for a framed menu and (0, 0) otherwise, flags 25 when the two frame bytes differ and 1 otherwise |
| MenuData.DrawnLineCount | engines/illusions/menusystem.cpp:424-435 | when the text fits, drawMenuText returns the number of listed items, `field54 - first + 1` |
| MenuData.HeaderLines | engines/illusions/menusystem.cpp:393-396 | a header of plain lines is NUL-free and holds one line break per line |
| MenuData.ItemsLines | engines/illusions/menusystem.cpp:398-403 | plain items are NUL-free and break once per item except after the menu's final item |
| MenuData.TextLines | engines/illusions/menusystem.cpp:389-405 | the text of a plain menu holds one line break per header line and per listed item, except the last item of a window that reaches the menu's end |
| MenuData.CutCountsCompleteLines | engines/illusions/menusystem.cpp:424-431 | when the text is cut, the count is the line breaks before the cut less the header lines, in unsigned arithmetic |
| MenuSystem.RemoveText | engines/illusions/menusystem.cpp:142-143 | removeText drops the newest text, if there is one |
| MenuSystem.DropStep | engines/illusions/menusystem.cpp:357-361 | removing one more text after k removals is k + 1 removals |
| MenuSystem.HoveredAt | engines/illusions/menusystem.cpp:445-460 | the item update takes as hovered is reachable and under the pointer, or 0 |
| MenuSystem.HoveredAtIff | engines/illusions/menusystem.cpp:445-460 | an item is hovered exactly when it is reachable and under the pointer |
| MenuSystem.SetDuration | engines/illusions/menusystem.cpp:478-489 | a positive duration enables the timer with end = start + duration modulo 2^32 and clears the suspension; zero disables it and keeps the rest |
| MenuSystem.Tick | engines/illusions/menusystem.cpp:500-525 | a disabled timer is inert; a non-empty stack suspends it without firing; it fires only with an empty stack, and firing disables it |
| MenuSystem.ResumeRestarts | engines/illusions/menusystem.cpp:505-517 | returning to an empty stack after a suspension restarts the timer from now and does not fire |
| MenuSystem.FiresOnce | engines/illusions/menusystem.cpp:518-521 | after firing, the next step does nothing |
| MenuSystem.ArmedFiresAtExpiry | engines/illusions/menusystem.cpp:478-522 | a freshly armed timer fires on the next quiet update with an empty stack exactly when the expiry test holds for its start and end |
| MenuData.BaseMenu.constructor | engines/illusions/menusystem.cpp:50-55 | the font, frame bytes, default item, header lines and items as given |
| MenuSystem.BaseMenuSystem.constructor | engines/illusions/menusystem.cpp:92-94 | timeout disabled and no choice variable, as the source sets them; the other fields take the values listed under Left out |
| MenuSystem.BaseMenuSystem.ShownItems | engines/illusions/menusystem.cpp:229-233 | activateMenu's drawn item count is never more than the menu's items |
| MenuSystem.BaseMenuSystem.BuildText | engines/illusions/menusystem.cpp:389-405 | the builder holds the header lines and the listed items with their line breaks and a final NUL; the item loop counts the listed items |
| MenuSystem.BaseMenuSystem.AppendHeader | engines/illusions/menusystem.cpp:393-396 | the header loop appends each header line and a line break |
| MenuSystem.BaseMenuSystem.AppendItems | engines/illusions/menusystem.cpp:398-403 | the item loop appends each listed item and a break unless it is the menu's final item, and counts them |
| MenuSystem.BaseMenuSystem.CountRestLines | engines/illusions/menusystem.cpp:425-431 | a cut text's count loses one, and one per line break left over, in unsigned arithmetic |
| MenuSystem.BaseMenuSystem.DrawMenuText | engines/illusions/menusystem.cpp:389-436 | the window's text is placed on screen and the returned count is DrawnLineCount of it |
| MenuSystem.BaseMenuSystem.ActivateMenu | engines/illusions/menusystem.cpp:221-235 | the menu is active with its header line count, first = 1, field54 and its saved count = its item count, its text on top, and menuItemCount = min(item count, drawn lines) |
| MenuSystem.BaseMenuSystem.SetMouseCursorToMenuItem | engines/illusions/menusystem.cpp:165-169 | the cursor moves to CursorAt of the item |
| MenuSystem.BaseMenuSystem.HoverFirst | engines/illusions/menusystem.cpp:130-132 | both hovered items become the first listed one and the cursor points at it |
| MenuSystem.BaseMenuSystem.Show | engines/illusions/menusystem.cpp:144-147 | activateMenu, then the first listed item hovered and pointed at |
| MenuSystem.BaseMenuSystem.EnterSubMenu | engines/illusions/menusystem.cpp:127-135 | the stack grows by one with the old active menu on top, the new menu is shown above the old texts, and script-facing state is kept |
| MenuSystem.BaseMenuSystem.PopMenu | engines/illusions/menusystem.cpp:138-143 | the top of the stack is popped and made active with its saved item count, and the two newest texts are removed |
| MenuSystem.BaseMenuSystem.LeaveSubMenu | engines/illusions/menusystem.cpp:137-150 | the stack shrinks by one and its old top is shown again in place of the two newest texts; script-facing state is kept |
| MenuSystem.BaseMenuSystem.CloseMenu | engines/illusions/menusystem.cpp:356-374 | the stack is popped until empty with one text removed per level and one for the menu; the game state and cursor are restored and the system is inactive |
| MenuSystem.BaseMenuSystem.EnterSubMenuById | engines/illusions/menusystem.cpp:152-155 | enterSubMenu of the table's menu for the id |
| MenuSystem.BaseMenuSystem.LeaveMenu | engines/illusions/menusystem.cpp:119-125 | leaveSubMenu when the stack is non-empty, closeMenu otherwise |
| MenuSystem.BaseMenuSystem.OpenMenu | engines/illusions/menusystem.cpp:330-354 | active with an empty stack, cursor and game state saved, game state 4, and the menu shown above what was on screen |
| MenuSystem.BaseMenuSystem.BeginSession | engines/illusions/menusystem.cpp:332-344 | the bookkeeping of openMenu before the menu is activated |
| MenuSystem.BaseMenuSystem.SelectMenuChoiceIndex | engines/illusions/menusystem.cpp:107-117 | writes offsets[i-1] to the choice variable only when i > 0 and there is a variable; notifies the caller, zeroes its id and closes the menu |
| MenuSystem.BaseMenuSystem.ExecuteAction | engines/illusions/menusystem.cpp:557-591 | EnterMenu enters the submenu, LeaveMenu leaves, ReturnChoice selects the choice, and EnterQueryMenu sets the confirmation index and then enters; only a query changes the confirmation index |
| MenuSystem.BaseMenuSystem.ClickTargets | engines/illusions/menusystem.cpp:384-385 | the menus whose saved count a click may overwrite are the table's |
| MenuSystem.BaseMenuSystem.HandleClick | engines/illusions/menusystem.cpp:376-387 | item 0 changes nothing; item i > 0 runs exactly the action of the active menu's item i-1 |
| MenuSystem.BaseMenuSystem.HoverStep | engines/illusions/menusystem.cpp:439-460 | the cursor follows the pointer and the hovered item is HoveredAt of it; a newly hit item becomes both hovered items; losing every item clears the hovered one; either change asks for a timeout restart |
| MenuSystem.BaseMenuSystem.Update | engines/illusions/menusystem.cpp:438-476 | hover step, then a left click handles the hovered item or an abort handles the default item, then the timeout step |
| MenuSystem.BaseMenuSystem.SetTimeOutDuration | engines/illusions/menusystem.cpp:478-489 | the timeout fields become SetDuration of the old ones |
| MenuSystem.BaseMenuSystem.TickTimeOut | engines/illusions/menusystem.cpp:500-523 | the timeout fields step as Tick, and the timeout is due exactly when Tick fires |
| MenuSystem.BaseMenuSystem.UpdateTimeOut | engines/illusions/menusystem.cpp:500-525 | the timer steps as Tick; when it fires its choice is selected, otherwise the menu and the caller are untouched |

## Left out

- Audio decoding and mixing, archive loading, subtitle parsing and drawing are not shown in the source; they become the abstract handles of `SoundHandles` with ghost call records.
- The `setType(SoundType)` overload the demotions call is declared in `engines/lastexpress/sound/entry.h`, which is not part of this model; it is taken to be the plain assignment of the slot, leaving the counter alone.
- The sound queue itself is not shown. Only the state entry.cpp reads and writes is kept: the entry list, the type counter, the flag word, the subtitle list, the current subtitle and the subtitle flag.
- The savepoint push and the looping-sound restart in close are returned as a `CloseSignal` value, not performed.
- The destructors and the `_currentDataPtr`, `_blockCount` and `_time` bookkeeping of the mixer are not modelled beyond the fields that are saved.
- SoundEntries.SoundEntry.Play: the source raises a fatal `error()` without a stream; the model reports `false` and changes nothing.
- SoundEntries.SubtitleEntry.SetupAndDraw: the source raises a fatal `error()` without a sound entry; the model reports `false` and changes nothing.
- SoundEntries.SoundEntry.UpdateSound requires names of at most fifteen characters, one less than the source's assert allows (see Findings).
- SoundEntries.SoundEntry.SaveLoad requires names of at most fifteen characters, one less than the source's assert allows (see Findings).
- Menu actors 318 and 323 (hover highlight and frame), the cursor sprite, its sequence, actor index and visibility, `initMenuCursor`, `setMenuCursorNum` and `discardAllEvents` are drawing and input plumbing; they are left out.
- Sound effects 13 and 14 and the debug output are left out; both sound effects are empty in the source.
- The Up and Down keys in update are left out; the source leaves them as empty branches.
- `getCurrentTime`, `isTimerExpired`, the polled input and the cursor position read in update are method parameters.
- The int16 choice offsets and choice variable are unbounded `int`.
- MenuGeometry.ItemRect and MenuGeometry.IndexAtPoint compute with unbounded `int`. `Common::Point` has int16 coordinates, and the unsigned product `charHeight * (menuItemIndex + _menuLinesCount - 1)` is stored back into one. The model does not capture the wrap-around of a rectangle that lies beyond the int16 range.
- Names are byte strings (`Common::String`) in the source and Dafny `string` here. The save record takes each character's value modulo 256 (SoundRecord.ByteOf). Only SoundRecord.NameFieldRoundTrip confines a name to byte characters; for other characters the saved bytes are not the name's.
- MenuText.Widen takes `char` to be signed, as it is on the usual ScummVM targets. The C++ standard leaves that to the implementation; where `char` is unsigned, the bytes from 0x80 up are zero-extended instead.
- MenuSystem.BaseMenuSystem.constructor: the source initialises only `_isTimeOutEnabled` (false) and `_menuChoiceOffset` (null). The model also picks values for the fields the source leaves uninitialised: `_isActive` false, `_activeMenu` null, an empty menu stack and no texts on screen, and a choice offsets table of zeros. Every other field, such as the timeout's times, the hovered items, the cursor and the game state, is left unconstrained, as in the source.
- The screen text is a function from an insert request to where the text landed; `removeText` drops the newest entry of the list of placed texts.
- The size of MenuTextBuilder's buffer and of the offsets table are declared in `menusystem.h`, which is not part of this model; they are constructor arguments.
- Menus are built by `addText` and `addMenuItem` while the game sets up; here they are given to the BaseMenu constructor with their header lines and items.
- MenuSystem.BaseMenuSystem.OpenMenu requires a menu of the table whose text fits the builder, whose default item exists and whose actions lead to existing menus and covered choices; the source assumes the same without checking.
- MenuSystem.BaseMenuSystem.EnterSubMenu requires an active menu; the source is only called from an open menu's actions.
- MenuSystem.BaseMenuSystem.HandleClick requires the index to be at most the active menu's item count; the source indexes the item list without a check.
- MenuSystem.BaseMenuSystem.SelectMenuChoiceIndex requires the choice to be covered by the offsets table when it is written; the source reads the table without a check.
- MenuSystem.BaseMenuSystem.SetTimeOutDuration requires the timeout's choice to be covered by the offsets table, so that a timeout can always be selected.
- MenuSystem.BaseMenuSystem.Update states only that the system stays valid; what its steps do is stated by HoverStep, HandleClick and UpdateTimeOut, which it calls in the source's order.
- MenuSystem.BaseMenuSystem.EnterSubMenu and MenuSystem.BaseMenuSystem.LeaveSubMenu are each specified on their own. No single lemma states the round trip of entering and then leaving. It follows from the two: the push puts the old active menu on top, and the pop shows that top again.

## Findings

| source | as written | input that shows it | evidently intended | confidence | as-written member | corrected member |
|---|---|---|---|---|---|---|
| engines/lastexpress/sound/entry.cpp:366-390 | the guard `size() <= 16` admits a sixteen-character name, which `strcpy` copies with its terminator into a `char[16]` | the name `NISSND0123456789`: sixteen characters, seventeen bytes copied | names of at most fifteen characters, so that the copy fits | not executed | SoundNames.SixteenCharNameOverflows | SoundNames.FitsNameBufferNoOverflow |
