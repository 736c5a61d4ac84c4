# DSOAL in Dafny

DSOAL implements DirectSound on top of OpenAL. This project models the parts of it where several
state machines meet, and proves what they keep over every run. It needs Dafny 4.11;
`dafny verify dfyconfig.toml` checks everything.

## What is modelled

**The playback engine.** `Slots` is the table of buffer places: groups of 64 under a free mask,
scanned by their lowest bits. `Sound` has the secondary buffers, the primary buffer with its
listener, and the DirectSound object, as classes with the fields and methods of the original. A
buffer's OpenAL source is a record of the parameters DSOAL sets (`AlSources`), and the central
invariant says that a buffer with a location has a source that shows all of its settings: volume,
frequency, and pan or the 3D settings under the listener's current rolloff. `Runs` lets any sequence
of calls reach these objects and shows that all of it is kept in every reachable state. From there
follows the exclusivity of the write-primary level: buffers that exist when the level is taken stay
lost, and silent, until it is lowered. `Switches` reaches the two ways in which taking it is refused, and
one in which it fails.

**Settings with deferred writes.** `Deferred` proves once, for any record of settings, that dirty bits
and two copies behave like a log of writes that each commit performs. `Params3D` and `ListenerParams`
are the two records, and the methods of `Sound` keep the same log beside their fields.

**Concurrency.** `SourcePools` interleaves the single atomic operations of the calls that take and give
back OpenAL sources, `RefCounts` those of AddRef and Release on the five interfaces of a buffer. Both
are state machines whose runs (`Traces`) are all sequences of steps, over any number of buffers and
threads.

**Notifications.** `NotifyCounts` counts how often a cyclic play position passes an offset and compares
that with what polls can see. `Notify` has the polling part of a buffer and the list of registered
buffers. Ghost fields count the passes of each position, its signals, the passes that were missed and the
signals that were for no pass; and `exact` says that every poll so far could be trusted and no pass was
dropped. The invariants balance these books, and keep them clean as long as the buffer is exact.
`NotifyRuns` has the runs. It finds out which events keep all buffers exact (`NotifyRuns.OnBuffer`,
`NotifyRuns.CarefulRun`); and on conditions on the events alone it shows that from a start to a stop, or
to the end and the poll after it, every position is signalled exactly as often as it is passed
(`NotifyRuns.PlayThrough`, `NotifyRuns.PlayToEnd`, `NotifyRuns.PlayToStop`). The play position is an
absolute count of bytes there, and OpenAL reports it modulo the buffer size.

**Sizes, cursors and locks.** `Sizes` has the 32-bit rounding of buffer sizes, `Notify.Buffer` the play
and write cursors, and `CyclicLock` the two-part locks.

**The capture ring.** `Capture` refines "the last bytes of the stream" by the copying loop, with the
notifications and locks of a capture buffer.

**Vendored code.** `Docopt`, `TruncatingBuffer`, `ParseInt` and `IsoWeek` prove four algorithms of fmt and
of the option parser in its support directory against simple definitions.

A buffer appears as a class in `Sound`, in `Notify` and in `CyclicLock`. The three have different fields
of the original's one object; none of the methods modelled in one of them changes what another holds,
except that the source's play state is in both `Sound` and `Notify`, where it moves by the same calls.

## Where the code falls short of what one would expect

These are results: the code is modelled as it is, and the exact condition is proved.

- A switch to DSSCL_WRITEPRIMARY succeeds if and only if no live buffer reports playing and either the
  primary buffer is not initialized or its emulation buffer can be created: its description passes the
  checks of a new buffer and the hardware pool is not full. A refused switch leaves the level alone, but
  not the buffers. If one plays, those whose places come before the first playing one have been marked
  lost (`Switches.RefusedWhilePlaying`); if the emulation buffer cannot be created, no buffer is named
  and every live buffer is lost (`Switches.RefusedWithoutHardware`). All of this is the contract of
  `Sound.DSound8OAL.SetCooperativeLevel`.
- The mutex is released between placing a new buffer (src/dsoundoal.cpp:634) and initializing it
  (src/dsoundoal.cpp:635), and the scan for playing buffers asks each one it meets for its status, which
  reads the storage of any that is not lost (src/buffer.cpp:954-966). With buffers in between, the scan
  fails if and only if one that has no storage yet is placed before every playing one
  (`Sound.DSound8OAL.ScanUnfinished`, `Switches.FailsWhileCreating`). A duplicate has its storage from the
  start and can become lost before it is handed out.
- A poll that comes a full lap or more after the last one misses exactly the whole laps
  (`NotifyCounts.LongGap`); a poll of the capture thread signals the last incomplete lap only
  (`Capture.WrittenIffShort`).
- A poll signals every position as often as it was passed since the last one if and only if
  `Notify.Buffer.Trusted` holds (`Notify.Buffer.PollRightIffTrusted`). While the source plays, mLastPos
  has to be where the source was at the last poll or start, and less than a lap may have gone by
  (`NotifyCounts.PlayedPollRight`). When it has stopped by itself, it has to have moved since then, by at
  most one lap, and mLastPos has to be right again (`NotifyCounts.StoppedPollRight`); a position set
  between the end and its poll makes it wrong in any case. Without a source, or with one that has never
  played, mLastPos has to be 0 (`NotifyCounts.UnplayedPollRight`). A start leaves mLastPos where the source
  does not start after a natural end that nobody polled (`NotifyRuns.StaleStart`), and a registered buffer that
  is restarted after such an end is short by one lap exactly if the next poll finds it at mLastPos or
  beyond (`NotifyCounts.RestartedPollShort`). What a poll gets wrong is booked in the ghost fields `missed`
  and `extra`, at exactly the positions it gets wrong (`Notify.Buffer.UpdateNotify`). Stop notifications are
  always counted right.
- The events that lead to a poll that cannot be trusted, or drop passes, are exactly those that are not
  `NotifyRuns.Careful`, a condition on mLastPos and the source before the event: coming round to mLastPos
  before the next poll, setting the position with passes since the last poll or of a source that does not
  play, a new source, a restart before the poll with mLastPos at 0, and a first start anywhere else than
  mLastPos.
- `SetCurrentPosition`, and a setLocation call that replaces the source, drop exactly the passes since the
  last poll of a registered buffer, which the contracts book as `missed`.
- A failing Unlock clears the lock (`CyclicLock.PlaybackLock.Unlock`).
- Disposal is right at all times of a run, once when nothing is left and never before, if and only if no
  Release takes its second step while the number of references and calls in flight is one more than a
  positive multiple of 2^32 (`RefCounts.DisposedRightIffNeverEarly`). A run that does this, and disposes
  with 2^32 references left, is `RefCounts.EarlyRun`.
- Years before year 0 never get a 53rd ISO week (`IsoWeek.IsoWeekExact`).

## What is assumed

- OpenAL does what its calls say: a source keeps the parameters it was given, generating a source
  succeeds, pausing changes only a playing source, a byte offset is reported for playing and paused
  sources only, and one set on another source is where it starts next. Whether `alSourcePlay` succeeds
  is a parameter.
- Gains are opaque: the curve from hundredths of a decibel is a parameter, and settings are exact reals,
  so NaN and rounding do not occur.
- The memory allocator returns groups that do not overlap (`Slots.SlotTable.CanAllocate`), and memory
  does not run out.
- Atomic operations are sequentially consistent single steps. Everything under the DirectSound
  object's mutex is one step.
- In the runs of `Runs`, no other thread's call comes between placing a new buffer and initializing it.
  `Sound.DSound8OAL.ScanUnfinished` says what a scan in between would do.
- Only buffers with DSBCAPS_CTRLPOSITIONNOTIFY have the interface that sets notifications
  (src/buffer.cpp:736-742).
- A caller of AddRef or Release owns a reference.
- A buffer is not registered for notifications when its last reference goes.
- Formats enter as their fields plus one flag that says whether a conversion exists.
- The limits and flags of dsound.h are written out where they are used; that header is not part of
  the repository.

## Model

| member | source | states |
|---|---|---|
| `Slots.SlotTable.Claim` | src/dsoundoal.cpp:397-429 | the place handed out was free, is the least free place over all groups, and is the only change to what is in use; a 65th place opens one new group and moves no other |
| `Slots.SlotTable.Dispose` | src/dsoundoal.cpp:939-954 | an address of a place in use is found in the one group that owns it, and exactly that place becomes free |
| `Slots.UniqueOwner` | src/dsoundoal.cpp:945-952 | among disjoint groups, the unsigned address difference is below 64 for the owning group and for no other |
| `Slots.CountrZero` | src/dsoundoal.cpp:424 | the lowest bit that is on |
| `Slots.AllLiveEnumerates` | src/dsoundoal.cpp:766-784 | the scan order lists every place in use once, in ascending order, and nothing else |
| `Slots.ScanMask` | src/dsoundoal.cpp:361-367 | clearing the lowest bit until the mask is empty visits the bits that are on, each once, in ascending order, and ends |
| `Slots.Scan` | src/dsoundoal.cpp:766-784 | the scan over all groups visits exactly the places in use, in ascending order of their global index |
| `Slots.FirstOpen` | src/dsoundoal.cpp:402-409 | the first group that has a free place, or the number of groups |
| `Sound.Buffer.constructor` | src/buffer.cpp:456-501 | a new buffer is unlocated and not lost; a duplicate shares the sample storage, counts one more reference on it, and takes over pan, frequency and 3D settings exactly if the storage is so controllable, but never the volume |
| `Sound.Buffer.Destroy` | src/buffer.cpp:503-522 | the pool of its location gets one place back, every occurrence in the 3D list goes, and the storage loses one reference |
| `Sound.Buffer.EnsureStorage` | src/buffer.cpp:986-1019 | a duplicate keeps its storage; any other buffer gets storage of its own exactly if the description passes every check, the refusal of multi-channel 3D on a DS8 object included |
| `Sound.Buffer.Initialize` | src/buffer.cpp:979-1038 | an initialized buffer is refused and nothing about it changes; otherwise it succeeds exactly if its description passes and there is room for the location it asks for |
| `Sound.Buffer.FirstInitialize` | src/buffer.cpp:986-1038 | exactly when it succeeds, from the description and the room in the pools before the call; success leaves a valid buffer, located as its flags ask unless deferred, listed if 3D, with each pool counter moved as the location; failure leaves it unlocated and uninitialized |
| `Sound.Buffer.SetLocation` | src/buffer.cpp:573-690 | a buffer that has what is asked for stays as it is; any other goes to hardware exactly if that is permitted and its counter is not at its maximum, to software exactly if that is permitted and has room and is asked for or hardware has none, and nowhere otherwise; the counters follow the location; afterwards the source shows every setting of the buffer |
| `Sound.Buffer.Configure` | src/buffer.cpp:621-685 | a source shows all settings of its buffer: gain, a pitch that plays the samples at the frequency, and either the pan that turns one side down by as much, or the 3D settings with every z negated under the current rolloff, with the fixed image for DS3DMODE_DISABLE |
| `Sound.Buffer.Locate` | src/buffer.cpp:1113-1142 | refused exactly for both locations at once, or for another location while playing; otherwise the location is that of setLocation, and a playing source plays on |
| `Sound.Buffer.AcquireResources` | src/buffer.cpp:1408-1457 | exactly the outcomes: lost, effects asked for, not movable, no room, or located as asked; a refused call leaves the source alone |
| `Sound.Buffer.Play` | src/buffer.cpp:1103-1174 | exactly the outcomes, and the location; DS_OK means it plays; a lost buffer never starts, and a failed call starts nothing; the source still shows every setting |
| `Sound.Buffer.Stop` | src/buffer.cpp:1286-1312 | a playing source pauses and any other keeps its state |
| `Sound.Buffer.EnsureSource` | src/buffer.cpp:2246-2260 | a buffer without a source gets an unmarked one, and stays valid |
| `Sound.Buffer.SetVolume` | src/buffer.cpp:1207-1226 | range and capability errors; otherwise the new volume, shown by the source at once |
| `Sound.Buffer.SetPan` | src/buffer.cpp:1230-1255 | the same for pan, which a 3D buffer keeps but does not show |
| `Sound.Buffer.SetFrequency` | src/buffer.cpp:1259-1282 | the same for frequency, where 0 means the format's own rate |
| `Sound.Buffer.SetPosition` | src/buffer.cpp:2038-2065 | deferred: one more write in the log, nothing else touched; immediate: this setting takes the value and no other changes, the log is untouched, and the source still shows all settings; unless the mode is DS3DMODE_DISABLE any source has the vector with z negated |
| `Sound.Buffer.SetVelocity` | src/buffer.cpp:2069-2096 | deferred: one more write in the log, nothing else touched; immediate: this setting takes the value and no other changes, the log is untouched, and the source still shows all settings; unless the mode is DS3DMODE_DISABLE any source has the vector with z negated |
| `Sound.Buffer.SetConeOrientation` | src/buffer.cpp:1855-1882 | deferred: one more write in the log, nothing else touched; immediate: this setting takes the value and no other changes, the log is untouched, and the source still shows all settings; unless the mode is DS3DMODE_DISABLE any source has the vector with z negated |
| `Sound.Buffer.SetConeAngles` | src/buffer.cpp:1818-1851 | deferred: one more write in the log, nothing else touched; immediate: this setting takes the value and no other changes, the log is untouched, and the source still shows all settings; a value out of range changes nothing |
| `Sound.Buffer.SetConeOutsideVolume` | src/buffer.cpp:1886-1913 | deferred: one more write in the log, nothing else touched; immediate: this setting takes the value and no other changes, the log is untouched, and the source still shows all settings; a value out of range changes nothing |
| `Sound.Buffer.SetMinDistance` | src/buffer.cpp:1947-1973 | deferred: one more write in the log, nothing else touched; immediate: this setting takes the value and no other changes, the log is untouched, and the source still shows all settings; a value out of range changes nothing |
| `Sound.Buffer.SetMaxDistance` | src/buffer.cpp:1917-1943 | deferred: one more write in the log, nothing else touched; immediate: this setting takes the value and no other changes, the log is untouched, and the source still shows all settings; a value out of range changes nothing |
| `Sound.Buffer.SetMode3D` | src/buffer.cpp:1977-2034 | deferred: one more write in the log, nothing else touched; immediate: this setting takes the value and no other changes, the log is untouched, and the source still shows all settings; a value out of range changes nothing |
| `Sound.Buffer.SetAllParameters` | src/buffer.cpp:1754-1814 | deferred: one more write in the log, nothing else touched; immediate: this setting takes the value and no other changes, the log is untouched, and the source still shows all settings; a value out of range changes nothing |
| `Sound.Buffer.SetParams` | src/buffer.cpp:1470-1549 | the flagged fields are copied and no others, and a source that showed the old settings shows the new ones |
| `Sound.Buffer.PushParams` | src/buffer.cpp:1493-1548 | the OpenAL calls for the flagged fields alone take a source from showing the old settings to showing the new ones |
| `Sound.Buffer.PushMode` | src/buffer.cpp:1521-1548 | a change of mode moves exactly the six parameters that depend on it, to the image of the mode or of the current settings |
| `Sound.Buffer.Commit` | src/buffer.h:284-288 | mImmediate becomes the replay of the deferred writes since the last commit, no dirty bit stays on, and the source shows the result |
| `Sound.PrimaryBuffer.PushRolloff` | src/primarybuffer.cpp:699-709 | every listed 3D buffer with a source and an enabled mode shows the new rolloff, and nothing else changes |
| `Sound.PrimaryBuffer.SetParams` | src/primarybuffer.cpp:662-712 | the flagged listener fields change, OpenAL's listener shows them with every z negated and a speed of sound of 343.3 meters in units of the distance factor, and all 3D buffers are valid under the new rolloff |
| `Sound.PushedShows` | src/primarybuffer.cpp:680-698 | the calls for the flagged fields take a listener from showing the old settings to showing the new ones, with and without EXT_EFX |
| `Sound.PrimaryBuffer.Commit` | src/primarybuffer.cpp:714-725 | the listener becomes the replay of its deferred writes, and so does every listed 3D buffer |
| `Sound.PrimaryBuffer.SetRolloffFactor` | src/primarybuffer.cpp:1048-1083 | logged or applied; applied, every 3D buffer is valid under the new factor |
| `Sound.PrimaryBuffer.SetPosition` | src/primarybuffer.cpp:1020-1044 | a listener setting joins the log, or takes effect in the settings and in OpenAL, vectors with z negated, and no other setting changes |
| `Sound.PrimaryBuffer.SetVelocity` | src/primarybuffer.cpp:1087-1111 | a listener setting joins the log, or takes effect in the settings and in OpenAL, vectors with z negated, and no other setting changes |
| `Sound.PrimaryBuffer.SetOrientation` | src/primarybuffer.cpp:984-1016 | a listener setting joins the log, or takes effect in the settings and in OpenAL, vectors with z negated, and no other setting changes |
| `Sound.PrimaryBuffer.SetDistanceFactor` | src/primarybuffer.cpp:922-951 | a listener setting joins the log, or takes effect in the settings and in OpenAL, vectors with z negated, and no other setting changes |
| `Sound.PrimaryBuffer.SetDopplerFactor` | src/primarybuffer.cpp:955-980 | a listener setting joins the log, or takes effect in the settings and in OpenAL, vectors with z negated, and no other setting changes |
| `Sound.PrimaryBuffer.SetAllParameters` | src/primarybuffer.cpp:871-918 | a listener setting joins the log, or takes effect in the settings and in OpenAL, vectors with z negated, and no other setting changes |
| `Sound.PrimaryBuffer.CreateWriteEmu` | src/primarybuffer.cpp:39-55 | a valid flat buffer of this object's own, in hardware and with as many whole blocks as 32768 bytes hold, exactly if the format fits (Emulable) and the hardware pool has room, and none otherwise |
| `Sound.PrimaryBuffer.EmuSize` | src/primarybuffer.cpp:41-45 | the size asked for is the greatest number of whole blocks in 32768 bytes, and is not rounded any further |
| `Sound.PrimaryBuffer.EmuSucceedsIff` | src/primarybuffer.cpp:39-55 | an emulation buffer can be created if and only if the format has whole bytes in every sample, one sample for each channel in a block, a rate in range, a block that fits, and a conversion, and the hardware pool has room |
| `Sound.PrimaryBuffer.DestroyWriteEmu` | src/primarybuffer.cpp:57-58 | no emulation buffer, and the 3D list untouched |
| `Sound.PrimaryBuffer.Initialize` | src/primarybuffer.cpp:297-352 | exactly its outcomes; success resets the listener to its defaults with nothing pending and all 3D buffers following; an emulation buffer is made only at DSSCL_WRITEPRIMARY; failure changes no setting |
| `Sound.PrimaryBuffer.SetFormat` | src/primarybuffer.cpp:400-558 | exactly its outcomes: the level, an extensible format that is too short and ignored, the checks of every field, or the creation of a new emulation buffer; the format is stored exactly if accepted, and no emulation buffer appears where there was none |
| `Sound.PrimaryAcceptsIff` | src/primarybuffer.cpp:459-532 | the checks of SetFormat in other words: samples of one to four whole bytes, four if they are floats, one for each channel in a block, and as many bytes a second as that makes in 32 bits |
| `Sound.PrimaryBuffer.Play` | src/primarybuffer.cpp:369-388 | exactly the outcomes: refused without looping, or for a priority, which the emulation buffer cannot have, or if OpenAL does not start that; it plays from then on exactly on DS_OK, and so does its emulation buffer |
| `Sound.PrimaryBuffer.Stop` | src/primarybuffer.cpp:617-634 | neither the primary buffer nor its emulation plays |
| `Sound.DSound8OAL.CreateSecondaryBuffer` | src/dsoundoal.cpp:397-429 | the new buffer is at the least free place; live buffers, places and addresses gain exactly it |
| `Sound.DSound8OAL.Dispose` | src/dsoundoal.cpp:939-954 | live buffers, places and addresses lose exactly this buffer; counters, 3D list and storage references follow |
| `Sound.DSound8OAL.InitializeOrDispose` | src/dsoundoal.cpp:634-640 | exactly when it succeeds; a failed initialization leaves the books as before the buffer was constructed |
| `Sound.DSound8OAL.CreateSoundBuffer` | src/dsoundoal.cpp:543-641 | exactly when it succeeds; success adds one valid initialized buffer at the least free place; failure leaves live buffers, counters and 3D list as they were, with at most one wholly free group more |
| `Sound.DSound8OAL.DuplicateSoundBuffer` | src/dsoundoal.cpp:695-740 | the same for a duplicate, and the storage's reference count goes up exactly on success |
| `Sound.RemovedInOrder` | src/dsoundoal.h:187-194 | every occurrence of a buffer goes from the 3D list, and the others stay in order |
| `Sound.DSound8OAL.LiveInOrder` | src/dsoundoal.cpp:766-773 | every live buffer once, in ascending order of places |
| `Sound.DSound8OAL.PrimaryPlays` | src/primarybuffer.cpp:250-282 | below DSSCL_WRITEPRIMARY the primary buffer reports playing exactly if it or some live buffer plays |
| `Sound.DSound8OAL.MarkLost` | src/dsoundoal.cpp:766-784 | either no live buffer reported playing and all are lost, or the first playing one is found and exactly the buffers before it have become lost |
| `Sound.DSound8OAL.SetCooperativeLevel` | src/dsoundoal.cpp:744-798 | a switch to DSSCL_WRITEPRIMARY succeeds if and only if no live buffer plays and the primary buffer is not initialized, or its format fits an emulation buffer and the hardware counter is not at its maximum; success leaves every live buffer lost and an initialized primary buffer with an emulation buffer in hardware; refused for a playing buffer it names the first one, and exactly the buffers before that have become lost; refused for the emulation buffer it names none, and all have; the level changes exactly on DS_OK; nothing that played becomes lost, and all buffers stay valid |
| `Sound.DSound8OAL.MarkUntil` | src/dsoundoal.cpp:766-784 | with no assumption on who is initialized: the scan stops at the first buffer that plays or that is neither lost nor has storage, and exactly those before it have become lost |
| `Sound.DSound8OAL.ScanUnfinished` | src/dsoundoal.cpp:766-784 | while other threads are between placing and initializing a buffer, the scan fails if and only if such a buffer, not lost and without storage, is placed before every playing one |
| `Switches.Entered` | src/dsoundoal.cpp:762-795 | a reachable switch that succeeds, with the format the primary buffer starts with |
| `Switches.RefusedWhilePlaying` | src/dsoundoal.cpp:776-780 | a reachable state in which the switch is refused because a buffer plays |
| `Switches.RefusedWithoutHardware` | src/dsoundoal.cpp:786-795 | a reachable state in which the switch is refused because the hardware pool is full: no buffer is named, the level is the old one, and a buffer that does not play has become lost |
| `Switches.FailsWhileCreating` | src/dsoundoal.cpp:634-635 | a reachable state in which the scan fails: a buffer has been placed and not been initialized yet |
| `Runs.CallBuffer` | src/buffer.cpp:1103-1457 | every call on a secondary buffer keeps it valid, does what it is for unless it is refused, and none makes it found again at DSSCL_WRITEPRIMARY |
| `Runs.Grown` | src/dsoundoal.cpp:634-640 | a creation keeps all live buffers valid, the 3D list exact and the emulation buffer sound |
| `Runs.Shrunk` | src/dsoundoal.cpp:939-954 | and so does a disposal |
| `Runs.Retuned` | src/primarybuffer.cpp:662-725 | and so does a change of the listener's rolloff or a commit |
| `Runs.Do` | src/dsoundoal.cpp:543-954 | any single call, on any object, keeps everything that holds between calls, the exiles of DSSCL_WRITEPRIMARY included, and what the call is for has come about unless it was refused |
| `Runs.Run` | src/buffer.cpp:573-2096 | in every state that any sequence of calls reaches, every located buffer's source shows its settings under the current rolloff, dirty bits stand for the deferred writes, lost buffers do not play, and an emulation buffer exists only at DSSCL_WRITEPRIMARY |
| `Runs.RunFromStart` | src/dsoundoal.cpp:373-380 | the same from a new DirectSound object on |
| `Runs.ExclusiveRun` | src/dsoundoal.cpp:744-798 | after a successful switch to DSSCL_WRITEPRIMARY, whatever is called, level numbers that do not exist included, no secondary buffer that existed at the switch plays until the level is lowered |
| `Deferred.CopyIsReplay` | src/buffer.cpp:1470-1491 | copying the dirty fields has the effect of replaying the deferred writes: no stale field leaks, whatever the deferred record was before |
| `Deferred.DeferredRefinesLog` | src/buffer.h:284-288 | over any interleaving of deferred setters, immediate setters and commits, the current settings are those a log of writes gives |
| `Deferred.DirtyIffWritten` | src/buffer.h:284-288 | a dirty bit is on exactly if its field was written deferred since the last commit |
| `Params3D.CopyIsLawful` | src/buffer.cpp:1473-1491 | the buffer's masked copy agrees field by field with the writes of the nine setters |
| `Params3D.ReplayWrites` | src/buffer.cpp:1754-2096 | what a commit makes of the deferred writes, one at a time: a write sets its own setting, or all of them, and no other |
| `Params3D.BufferRefinesLog` | src/buffer.cpp:1754-2096 | both results, and that a second commit changes nothing, for the 3D settings of a buffer |
| `ListenerParams.LCopyIsLawful` | src/primarybuffer.cpp:664-678 | the listener's masked copy agrees with its writes |
| `ListenerParams.LReplayWrites` | src/primarybuffer.cpp:871-1111 | and so for the listener |
| `ListenerParams.ListenerRefinesLog` | src/primarybuffer.cpp:871-1111 | the same three results for the listener |
| `SourcePools.AdvanceConserves` | src/dsoundoal.h:82-107 | every atomic step of a setLocation or a destructor keeps both counters equal to the buffers that have a place |
| `SourcePools.RunConserves` | src/dsoundoal.h:82-107 | in every interleaving, spurious compare-and-swap failures included, the counters equal the buffers with a place and never exceed their maxima, though the guard tests equality only |
| `SourcePools.HolderCounted` | src/dsoundoal.h:106-107 | a decrement never underflows |
| `SourcePools.RestConserves` | src/buffer.cpp:573-690 | with no call in flight the counters equal the buffers marked with each location |
| `SourcePools.EveryOutcomeIsHonest` | src/buffer.cpp:596-619 | DS_OK comes with the location asked for, and with a new place in software that was not asked for only if there was a moment during the call at which every place in hardware was taken; a failure comes with None, and for each permitted pool there was such a moment |
| `SourcePools.StaysIfItWill` | src/buffer.cpp:575-590 | a call is over as soon as it begins exactly if the buffer has a place and asks for that or for any, and then nothing moves |
| `SourcePools.UndisturbedCall` | src/buffer.cpp:573-619 | a call that no other disturbs is over after at most seven operations, in hardware if that is permitted and has room, or else in software if that is, or else nowhere |
| `RefCounts.RunCounted` | src/buffer.cpp:760-777 | in every interleaving of any number of threads all six counts are right modulo 2^32 |
| `RefCounts.StartOwnsOne` | src/buffer.h:199-200 | at first the creator owns one reference to IDirectSoundBuffer, counted in the total and in that interface, and that is all |
| `RefCounts.AddRefCounts` | src/buffer.cpp:1559-1567 | over a whole AddRef, with any steps of other threads between its own, the first step adds one to the total only, the second one to the count of this interface only, and the thread gains exactly one reference to it |
| `RefCounts.ReleaseCounts` | src/buffer.cpp:1569-1578 | over a whole Release the thread loses exactly one reference to the interface, the first step takes one from the count of this interface only, and the second one from the total only |
| `RefCounts.RunTotal` | src/buffer.cpp:1559-1578 | the total is the sum of the interface counts plus the threads between the two steps of a call |
| `RefCounts.DisposalsAreSteps` | src/buffer.cpp:770-777 | over every run dispose is called once for each Release whose second step finds one more than a multiple of 2^32 references and calls |
| `RefCounts.DisposedRightIffNeverEarly` | src/buffer.cpp:770-777 | at all times of a run dispose has been called once if nothing is left and not at all otherwise, if and only if no such step came while more than one was left |
| `RefCounts.DisposedExactlyOnce` | src/buffer.cpp:770-777 | without such a step, dispose has been called exactly once if no thread owns a reference or is inside a call, and otherwise not at all |
| `RefCounts.DisposedOnceIfFew` | src/buffer.cpp:770-777 | the same over every run that never has more than 2^32 references and calls at once |
| `RefCounts.EarlyRun` | src/buffer.cpp:760-777 | a run from the start that disposes of the buffer while 2^32 references remain |
| `NotifyCounts.ShortGap` | src/buffer.cpp:539-556 | between polls less than a lap apart a position is signalled exactly as often as it was passed |
| `NotifyCounts.LastGap` | src/buffer.cpp:536-545 | the poll that finds the source stopped is exact up to the end, even for a full lap |
| `NotifyCounts.FullGap` | src/buffer.cpp:539-556 | a gap of exactly one lap signals nothing although every position was passed |
| `NotifyCounts.LongGap` | src/buffer.cpp:539-556 | any longer gap is short by the number of whole laps |
| `NotifyCounts.PollExactIffShort` | src/buffer.cpp:539-556 | a poll of a buffer that knows where it was is exact if and only if less than a lap went by |
| `NotifyCounts.PlayedPollRight` | src/buffer.cpp:529-557 | while the source plays, a poll is right for all positions if and only if mLastPos is where the source was and less than a lap went by |
| `NotifyCounts.StoppedPollRight` | src/buffer.cpp:536-557 | the poll that finds the source stopped is right for all positions if and only if it moved on since, by one lap at most, and mLastPos is where it was |
| `NotifyCounts.UnplayedPollRight` | src/buffer.cpp:529-557 | a poll without a source that ever played is right for all positions if and only if mLastPos is 0 |
| `NotifyCounts.RestartedPollShort` | src/buffer.cpp:1157-1171 | a registered buffer that stopped unpolled and is restarted is short by one lap exactly if the next poll finds it at mLastPos or beyond |
| `NotifyCounts.PollsExact` | src/buffer.cpp:525-569 | over any number of polls each position has been signalled exactly as often as it was passed since the registration |
| `NotifyCounts.PollsToEndExact` | src/buffer.cpp:525-569 | and still so after the poll that finds the source stopped at the end |
| `Notify.Buffer.PollRightIffTrusted` | src/buffer.cpp:525-569 | the next poll is right for all positions if and only if the buffer is trusted, a condition on mLastPos, the source state and the distance gone |
| `Notify.Buffer.UpdateNotify` | src/buffer.cpp:525-569 | a poll is trusted if and only if it signals every offset as often as it was passed; it books a missed pass or a signal for no pass at exactly the positions it gets wrong; the buffer stays exact only if the poll was trusted, stays registered exactly if it plays, and leaves with each stop notification signalled once |
| `Notify.Buffer.Play` | src/buffer.cpp:1140-1173 | exactly the outcomes; where the source starts, what mLastPos is then, what was missed, when the buffer stops being exact, and that a buffer with notifications that starts is registered, once |
| `Notify.Buffer.Stop` | src/buffer.cpp:1286-1312 | with DSBCAPS_CTRLPOSITIONNOTIFY every listed buffer is polled once, those that play stay listed in order, and this one has left with its stop notifications signalled; without it nobody is polled; either way mLastPos is the position it stopped at |
| `Notify.Buffer.Settle` | src/buffer.cpp:1303-1304 | triggering the notifications polls each listed buffer once and takes a buffer that does not play off the list, so that removing it finds nothing |
| `Notify.Buffer.AcquireResources` | src/buffer.cpp:1450-1451 | a replaced or lost source drops exactly the passes since the last poll, and everything stays accounted for |
| `Notify.Buffer.EnsureSource` | src/buffer.cpp:2256-2260 | an unmarked source does not upset the counts |
| `Notify.Buffer.SetCurrentPosition` | src/buffer.cpp:1178-1195 | the position and mLastPos are on the block boundary asked for, and exactly the passes since the last poll of a registered buffer are missed |
| `Notify.Buffer.GetCurrentPosition` | src/buffer.cpp:809-867 | both cursors are below the size and on block boundaries, no 32-bit sum wraps, and while it plays the write cursor is the whole frames of one update ahead |
| `Notify.Buffer.SetNotificationPositions` | src/buffer.cpp:2450-2507 | refused exactly while playing or for a position that is neither below the size nor 0xFFFFFFFF; a pending buffer that stopped has been polled, along with all others, and left the list; new positions start with clean counts |
| `Notify.Buffer.Advance` | src/buffer.cpp:525-569 | while OpenAL plays on, for however long, everything stays accounted for |
| `Notify.Buffer.ReachEnd` | src/buffer.cpp:525-569 | and when the source reaches its end |
| `Notify.DSound8OAL.TriggerNotifies` | src/dsoundoal.cpp:463-468 | every listed buffer is polled, and exactly those that do not play are erased |
| `Notify.DSound8OAL.PollEach` | src/dsoundoal.cpp:454-456 | each buffer once: it stays if it plays, and is settled if not |
| `Notify.DSound8OAL.NotifyRound` | src/dsoundoal.cpp:433-460 | one round of the thread polls every registered buffer once and keeps those that play, in order |
| `NotifyRuns.OnBuffer` | src/buffer.cpp:1103-1312 | while every buffer is exact and its next poll trusted, an event of one of them keeps that if and only if it is careful: any other makes the next poll wrong for some offset, or drops passes no poll has seen; the other buffers are left alone or polled |
| `NotifyRuns.Do` | src/dsoundoal.cpp:433-480 | any event that is possible comes about and keeps all books; the first buffer is left alone or polled by an event of another |
| `NotifyRuns.Run` | src/dsoundoal.cpp:433-480 | over every run of creations, releases, calls, playback and rounds, signals and missed passes balance passes and extra signals for every position, and each stop notification has been signalled once for each registration that ended |
| `NotifyRuns.CarefulRun` | src/dsoundoal.cpp:433-480 | up to the first event of a run that is not careful, every position of every buffer has been signalled exactly as often as it was passed while registered, but for the passes since its last poll |
| `NotifyRuns.PlayThrough` | src/buffer.cpp:525-569 | a buffer started at mLastPos, with less than a lap of playback between rounds, and any creations, releases and calls on other buffers in between: no pass is missed and nothing is signalled for no pass, over any number of laps |
| `NotifyRuns.PlayToEnd` | src/buffer.cpp:525-569 | played to its natural end and polled, it has signalled each position from its start on once and no other, and each stop notification once, and is not registered any more |
| `NotifyRuns.PlayToStop` | src/buffer.cpp:1286-1312 | stopped by a call after any number of laps, it has signalled each position exactly as often as it was passed from its start to where it stopped, and each stop notification once, and is not registered any more |
| `NotifyRuns.StaleStart` | src/buffer.cpp:1157-1171 | a run in which a position is signalled that nothing ever passed |
| `Notify.DSound8OAL.RemoveNotifyBuffer` | src/dsoundoal.h:205-209 | no occurrence is left, and all others stay in order |
| `Sizes.RoundedSizeExact` | src/buffer.cpp:393-395 | the rounded size is the least block multiple that holds the request, or 0 if the rounding wraps 2^32 |
| `Sizes.AcceptedSize` | src/buffer.cpp:339-397 | an accepted size is that least multiple, within the DirectSound limits; no wrapped size is accepted |
| `Sizes.WholeSamples` | src/buffer.cpp:339-433 | what comes of every description whose samples are whole bytes and whose blocks are one sample for each channel |
| `Sizes.BrokenSamples` | src/buffer.cpp:355-370 | any other is refused |
| `Notify.WriteAhead` | src/buffer.cpp:828-829 | the write cursor's sum fits 32 bits for every rate, block alignment and refresh in [20, 100] |
| `CyclicLock.PlaybackLock.Lock` | src/buffer.cpp:1042-1099 | exactly the error conditions; on success the regions are the cyclic interval, and the buffer is locked; at most one lock is out |
| `CyclicLock.PlaybackLock.Unlock` | src/buffer.cpp:1316-1343 | exactly what is accepted; a refused call clears the lock too |
| `CyclicLock.PlaybackLock.LockThenUnlock` | src/buffer.cpp:1042-1343 | an Unlock of what a Lock gave, or of less, succeeds |
| `CyclicLock.LocksExactly` | src/buffer.cpp:1079-1096 | the two regions are disjoint and together exactly the bytes of the interval |
| `Capture.ChunkExtends` | src/capture.cpp:149-159 | a chunk written at the write position extends the stream the ring holds |
| `Capture.HoldsDetermines` | src/capture.cpp:149-160 | the stream determines the ring's content |
| `Capture.DSCBuffer.Fill` | src/capture.cpp:144-160 | the copying loop ends, and the ring holds the last bytes of the longer stream, over any number of laps |
| `Capture.DSCBuffer.FillChunk` | src/capture.cpp:149-159 | each turn copies at least one whole frame and ends on a frame boundary or at 0 |
| `Capture.DSCBuffer.Poll` | src/capture.cpp:127-174 | after any poll mWritePos is the stream length modulo the size and the ring holds the last bytes; signalled are exactly the positions written in the last incomplete lap |
| `Capture.DSCBuffer.SignalNotifies` | src/capture.cpp:162-172 | exactly the positions between the two write positions |
| `Capture.PollSignals` | src/capture.cpp:162-172 | a poll of any length signals exactly the positions of its last incomplete lap |
| `Capture.WrittenIffShort` | src/capture.cpp:162-172 | the notifications of a poll are exactly the positions written if and only if it covers less than a lap |
| `Capture.DSCBuffer.Initialize` | src/capture.cpp:524-551 | sizes are accepted exactly in [block, 2^31) and in whole blocks, which is what makes the loop end |
| `Capture.DSCBuffer.GetCurrentPosition` | src/capture.cpp:260-281 | both cursors are inside the ring on frame boundaries |
| `Capture.DSCBuffer.Lock` | src/capture.cpp:555-610 | exactly the error conditions, with a cursor at the size allowed; the regions are the cyclic interval |
| `Capture.DSCBuffer.Unlock` | src/capture.cpp:664-685 | exactly what is accepted |
| `Capture.DSCBuffer.LockThenUnlock` | src/capture.cpp:555-685 | an Unlock of what a Lock gave, or of less, succeeds |
| `Capture.DSCBuffer.SetNotificationPositions` | src/capture.cpp:747-788 | refused exactly while capturing or for a position that is neither below the size nor 0xFFFFFFFF |
| `Capture.LockedIsTail` | src/capture.cpp:555-610 | a lock of n bytes up to the read position reads the last n bytes of the stream in order |
| `Docopt.Transform` | fmt-11.2.0/support/docopt.py:72-96 | the worklist yields exactly the alternatives of the recursive expansion, each as often, and ends |
| `Docopt.OwnExample` | fmt-11.2.0/support/docopt.py:75 | the example the program gives: two choices between two make four alternatives |
| `Docopt.OwnQuirks` | fmt-11.2.0/support/docopt.py:76 | and its quirks: what is optional is taken, and one or more is two |
| `Docopt.SuccessorsKeep` | fmt-11.2.0/support/docopt.py:88-93 | replacing a group by what its branch expands to keeps the alternatives |
| `Docopt.PickFirst` | fmt-11.2.0/support/docopt.py:86-87 | the first branch of a group can be taken out of its place |
| `Docopt.SuccessorsCostLess` | fmt-11.2.0/support/docopt.py:82-93 | every turn leaves strictly less work, for all the doubling and the fan-out |
| `Docopt.Remove` | fmt-11.2.0/support/docopt.py:87 | the first equal element goes |
| `Docopt.ExpandOne` | fmt-11.2.0/support/docopt.py:85-93 | one turn keeps the alternatives and lowers the work |
| `Docopt.ProductAppend` | fmt-11.2.0/support/docopt.py:90-93 | the product over two lists of children is the product of the two products |
| `TruncatingBuffer.IteratorBuffer.PushBack` | fmt-11.2.0/include/fmt/base.h:1816-1819 | one character joins the output, across any flush |
| `TruncatingBuffer.IteratorBuffer.Append` | fmt-11.2.0/include/fmt/base.h:1821-1841 | all characters join the output in order, and the loop ends |
| `TruncatingBuffer.IteratorBuffer.Flush` | fmt-11.2.0/include/fmt/base.h:1885-1933 | both flushes deliver the prefix of the output up to the limit |
| `TruncatingBuffer.IteratorBuffer.Limit` | fmt-11.2.0/include/fmt/base.h:1866-1870 | how many of the next characters are still under the limit |
| `TruncatingBuffer.FormatToIterator` | fmt-11.2.0/include/fmt/base.h:2866-2874 | exactly the first n characters are delivered and the count is that of all, for any formatter and any n |
| `TruncatingBuffer.FormatToPointer` | fmt-11.2.0/include/fmt/base.h:1913-1956 | the same for a pointer, and nothing behind the delivered characters is written |
| `ParseInt.Scan` | fmt-11.2.0/include/fmt/base.h:1297-1304 | the loop stops at the first non-digit with the value modulo 2^32 |
| `ParseInt.ParseNonnegativeInt` | fmt-11.2.0/include/fmt/base.h:1293-1316 | the exact value if the run has at most ten digits and fits an int, and the error value otherwise |
| `ParseInt.ParseNumeral` | fmt-11.2.0/include/fmt/base.h:1293-1316 | parsing the decimal numeral of any number, made by repeated division, gives that number if it fits an int and the error value if not, and stops where the numeral ends |
| `IsoWeek.WeeksOfYear` | fmt-11.2.0/include/fmt/chrono.h:1192-1201 | the two residues tell the years of 53 weeks from year 0 on; earlier years get 52 |
| `IsoWeek.IsoWeekExact` | fmt-11.2.0/include/fmt/chrono.h:1206-1220 | for consistent dates the code names the year and week of the Thursday if and only if the week is not the 53rd of a year before year 0 |
| `IsoWeek.IsoWeekFromYearZero` | fmt-11.2.0/include/fmt/chrono.h:1206-1220 | from year 0 on it always does |
| `IsoWeek.KnownDates` | fmt-11.2.0/include/fmt/chrono.h:1206-1220 | two dates at the turn of a year, and what the code says of them |
| `IsoWeek.InIsoWeekUnique` | fmt-11.2.0/include/fmt/chrono.h:1206-1220 | no day has two ISO weeks |
| `IsoWeek.BeforeYearZero` | fmt-11.2.0/include/fmt/chrono.h:1192-1201 | a date in year -2 for which the code is wrong |

## Left out

- Real OpenAL, EAX, COM, Win32 event and thread calls, device lookup, logging and enumeration: foreign calls.
- The EAX slots that setLocation clears, the property sets, and the fullduplex and factory objects: they delegate.
- Format tables and the conversion of formats: single-branch lookups; only their yes or no is kept.
- Plain getters and QueryInterface: they read one field or dispatch.
- The list of shared devices and its race with Release, and the destruction of a DirectSound object with live buffers: the code does not protect them.
- The sample data of playback buffers: no modelled property reads it.
- A DirectSound object that has no device yet: its methods only refuse.
- The primary buffer's own reference counts: the first reference appears as one call.
- PrimaryBuffer's volume, pan and frequency: a range and capability check in front of one field, the listener's gain, and the SetPan of the emulation buffer.
- The notify thread's waiting times: rounds come at any time.
- The sorting of notification positions: it only orders the events of one poll.
- Looping and the byte offset in module Sound: they are in module Notify.
- Start and Stop of a capture buffer: they start and join the thread and signal the stop notifications once.
- Concurrent readers of the capture ring: a lock does not stop the capture thread, so nothing is promised to them.
- The other buffers and parsers of fmt, and the rest of docopt: no property of comparable weight.
- RefCounts.DisposedExactlyOnce: runs in which a Release disposes early; RefCounts.DisposedRightIffNeverEarly and RefCounts.DisposalsAreSteps say what happens in them.
- Sound.DSound8OAL.CreateSoundBuffer: the primary buffer's branch is PrimaryBuffer.FirstReference and Initialize; placing and initializing are one step, and of what other threads may do between them only the scan is modelled (Sound.DSound8OAL.ScanUnfinished).
- Sound.DSound8OAL.DuplicateSoundBuffer: the same.
- Sound.PrimaryBuffer.Stop: the reset of the emulation buffer to position 0, since module Sound has no positions; Notify.Buffer.SetCurrentPosition is the call.
- Sound.Buffer.Play: the notification part of the method is Notify.Buffer.Play.
- Docopt.Remove: patterns are equal if they have the same structure, where the program compares what repr prints; the two agree on any list that has a branch behind leaves.
- TruncatingBuffer.FormatToIterator: characters that a formatter writes into the buffer without push_back or append are not modelled.
- TruncatingBuffer.FormatToPointer: the same.
- Sound.SharedDevice: its counters move in one atomic step here; SourcePools has the compare-and-swap loops, and SourcePools.UndisturbedCall says that a call no other disturbs comes to the same.
