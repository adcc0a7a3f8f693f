# ESP-KVM firmware: a verified model

The firmware of a KVM device: it feeds keyboard, mouse and gamepad reports to a
target computer, streams the target's sound, keeps settings and device profiles
in flash, relays logs, asks a helper on the target, reads chat replies and
emulates an optical drive. This project models the cores with the most state
and arithmetic in Dafny and proves what they promise, for every input, every schedule and every run.

| files | core |
|---|---|
| `hid_reports.dfy`, `hid_queue.dfy`, `hid_target.dfy`, `hid_worker.dfy` | Pointer reports folded in a bounded queue, and release-all. Messages and folding as values; queue, worker, callers and target as a state machine in which callers may run between the worker's peek and its receive; what the target gets of each message, field by field and in all; the driver's own methods proved to be its steps. |
| `resample.dfy`, `opus_stream.dfy`, `opus_reader.dfy` | The 16.16 resampler against one-shot interpolation, the timeline that fills gaps and cuts overlaps, fixed-size packets with an encoder that may fail, and one reader's bounded queue. |
| `settings.dfy`, `profiles.dfy`, `profile_bodies.dfy`, `settings_store.dfy`, `settings_apply.dfy`, `store_runs.dfy` | Settings with an overlay cache, against a model that looks values up: tables and JSON objects, the calls as functions on that model, the store whose methods keep cache, flash and model together, the all-or-nothing write with its pin check, and any sequence of the calls over that store. |
| `pin_conflict.dfy`, `profile_match.dfy`, `profile_choice.dfy`, `profile_auto.dfy`, `profile_task.dfy`, `device_runs.dfy` | Pin conflicts, rule scores, what a settled device does to the profile, the once-a-second task and the restarts it makes, over runs with power cycles; task, store and calls together. |
| `log_ring.dfy`, `stream_ring.dfy`, `net_lines.dfy`, `text.dfy` | The wrapping log ring, its concurrent drain into a tail, readers by position, and the lines of the network log, all against the sequence of every byte written. |
| `agent.dfy` | Callers, timeouts, late answers and the reader task as atomic steps over a waiting id, an answer slot and a binary semaphore; the line framing. |
| `json_text.dfy`, `json_scan.dfy`, `key_search.dfy`, `tg_chats.dfy`, `chat_meaning.dfy`, `chat_reply.dfy` | JSON values and how they are written (RFC 8259 sections 2 to 7, RFC 3629 section 3), and the hand-written scanner that reads chats out of them. |
| `wear_level.dfy` | The wear-levelling layer: building it, walking the dummy sector, and taking it off again. |
| `media_events.dfy` | The optical drive's media events (MMC-6, GET EVENT STATUS NOTIFICATION command). |
| `options.dfy`, `sequences.dfy` | A value that may be missing; sequences joined. |

State that the firmware updates in place is a class; its methods are proved
equal to steps of a specification over values, and the promises are lemmas about
that specification. `dafny verify dfyconfig.toml` checks everything.

Where a promise fails, a lemma names an input and another says exactly when it
holds:

- A release can be lost: the worker peeks at a move and folds it, a caller that
  found the queue full resets it and queues the release, and the worker's
  receive takes the release in place of the move (`ReleaseMayBeEaten`). That is
  the only way, on every run (`ReleaseIsCarriedOutExactly`, `EatenExactly`); the
  same receive is the only one that makes reports differ from what was received
  (`ReportsAreWhatWasTaken`, `WorkerKeepsStream`).
- Wheel and pan survive folding if and only if no foldable block of idle
  messages sums beyond one report (`ScrollSurvivesExactly`); sums counted from
  the start of the run are not enough (`RunningSumIsNotEnough`).
- Relative motion reaches the target whole if and only if no foldable block sums
  beyond one report (`MotionArrivesExactly`); a report saturates on its own side.
- A button release may be reported at the place of a later idle move
  (`ReleaseMayMove`), unless none that could be folded is at another place
  (`EdgesStayExactly`).
- A packet that ends in made-up silence is not heard however much sound it holds
  (`MostlySoundIsNotHeard`, `LastFrameDecides`); the comment at
  components/kvm_audio/opus.c:199-201 reads otherwise.
- A reader that lets its queue overflow sees gaps that nothing marks
  (`OverflowIsNotMarked`), exactly if it had taken a packet before one was
  dropped (`GapsExactly`, `GapsAreMarkedExactly`).
- A profile update that gives a key two values leaves both stored. The value
  next set is seen until the overlay is next loaded, and then the other one is
  back (`KeyGivenTwiceGoesStale`, `SettingHoldsExactly`, `MergeRepeats`). Overlay
  and lookup agree over a run of calls if and only if every value set takes hold
  (`DoAll`, `HappenAll`, `TakesHoldExactly`).
- A settings body that names a pin twice is weighed by the first value and set
  to the last (`PinNamedTwiceEscapes`); one that only shows a pin can reveal a
  clash that was stored (`ShowingRevealsAClash`); all visible pins are sound if
  and only if the request is accepted and those it does not name are sound among
  themselves (`WiringIsSoundExactly`, `AcceptedKeepsWiring`). While both values
  read the same the pin check is exact (`PinCheckIsExact`), and for any body
  `PinCheckIsRightExactly` says when it is right.
- A profile chosen by hand is not held for the device attached if it is the first
  one ever made, or if it is chosen again while it is in effect
  (`FirstHandChoiceIsUndone`, `SameChoiceAgainIsUndone`); what it is held for
  decides (`ChoosingByHandHoldsExactly`, `HandChoiceHoldsExactly`).
- Default chosen by hand is forgotten as a choice at a restart
  (`DefaultByHandIsForgotten`, `HandChoiceOutlivesARestartExactly`).
- The log tail repeats what is written between the two looks at its start
  (`StartRepeatsALine`, `SeedRepeatsExactly`, `StartAndFollow`).
- A member name that ends in an escaped quote and a key is taken for that key
  (`EscapedQuoteInANameFools`); string values never are.
- A name cut short may end in half of a character that is written as two escapes
  (`HalfACharacterIsKept`, `CopyKeepsWholeCharactersExactly`).
- An agent's answer that comes before the stale semaphore is cleared is lost
  (`EarlyAnswerIsLost`); one that comes later is returned if and only if the
  request gets out (`AnswerInTimeIsReturned`).
- A media event is over even if the host took too few bytes to see it
  (`CutChangeStaysUnseen`, `HostIsInformedExactly`).

## Model

| member | source | states |
|---|---|---|
| `HidCoalescing.CoalescingKeepsMeaning` | components/kvm_hid/usb_hid.c:1337-1389 | However the worker cuts the queue into groups, the folded reports and the single messages have the same meaning: per pointer the same button states with repeats removed, the same last absolute position of each idle run, the same dx/dy sums before the int16 clamp, every other message in place; wheel and pan sums too while no report saturates |
| `HidCoalescing.CoalescingKeepsEvents` | components/kvm_hid/usb_hid.c:1337-1389 | Non-mouse, solo and held-button messages go out unchanged and in order, and each pointer's button edges are the same |
| `HidCoalescing.ScrollSurvivesExactly` | components/kvm_hid/usb_hid.c:1371-1388 | Wheel and pan reach the target whole on every schedule if and only if no block of messages that can be folded together sums beyond one report's range |
| `HidCoalescing.RunningSumIsNotEnough` | components/kvm_hid/usb_hid.c:1371-1388 | A concrete queue whose sums from the start of the run stay within 127 and whose wheel is still cut: the weaker condition is not enough |
| `HidCoalescing.ReleaseMayMove` | components/kvm_hid/usb_hid.c:1360-1378 | A concrete press, release, move that some grouping reports as press, move: the edge is kept and carried at the later place |
| `HidCoalescing.EdgesStayExactly` | components/kvm_hid/usb_hid.c:1360-1378 | Every button edge of the absolute pointer keeps its place on every grouping if and only if no message that ends a press can be folded with a later idle one at another place |
| `HidCoalescing.MotionFits` | components/kvm_hid/usb_hid.c:1337-1389 | The unbounded dx and dy of the model stay within int32 for any number of folds up to 65535 |
| `HidPort.ReleaseHoldsNothing` | components/kvm_hid/usb_hid.c:1309-1331 | After a release-all nothing is held on any interface and the cursor is where it was |
| `HidPort.CoalescingKeepsTarget` | components/kvm_hid/usb_hid.c:1158-1331 | Sending the folded reports leaves the target with the same keys, buttons, pad and cursor position as sending every message by itself |
| `HidCarried.DispatchCarries` | components/kvm_hid/usb_hid.c:1158-1331 | Whatever the message, each interface offered shows what it asks for, field by field, dx and dy saturated to their own side, and everything else is as it was |
| `HidCarried.FoldCarriesBoth` | components/kvm_hid/usb_hid.c:1337-1389 | Two messages fold exactly if both are moves of one pointer, no nudge and no button down, and the folded report carries what both ask for |
| `HidCarried.OnlyIdleMovesShareAReport` | components/kvm_hid/usb_hid.c:1337-1389 | A nudge, a held button and everything that is no move goes out as it is, alone in its report, on every schedule |
| `HidTravel.TravelIsWhatWasAsked` | components/kvm_hid/usb_hid.c:1165-1185 | Over every run in which no report's sums leave what it can carry, the target has moved by the sum of dx and the sum of dy, and scrolled by the sums of wheel and pan, of the messages sent |
| `HidTravel.MotionArrivesExactly` | components/kvm_hid/usb_hid.c:1165-1185 | Of the int16 motions callers ask for, all reaches the target on every schedule if and only if no block that can go out as one relative report sums beyond int16 on either axis |
| `HidTravel.KeysAndPadArrive` | components/kvm_hid/usb_hid.c:1429-1468 | Over every run the target got every key report, and went through every state of the pad, taps included, that the messages sent ask for, in order, and no other |
| `HidQueue.ReleaseIsNeverLost` | components/kvm_hid/usb_hid.c:1470-1514 | Over every run without a queue reset between a worker's peek that folded and its receive: once a release is queued, nothing newer is, and the queue drains to a plugged target, the release was carried out and nothing is held |
| `HidQueue.ReleaseIsCarriedOutExactly` | components/kvm_hid/usb_hid.c:1470-1514 | Over every run: a queued release with nothing newer behind it, drained to a plugged target, was carried out if and only if no receive of the worker found it at the head after a reset between the peek that folded and that receive; carried out, nothing is held and the cursor is where it was |
| `HidQueue.EatenExactly` | components/kvm_hid/usb_hid.c:1502-1511 | One step throws the last queued release away unreported if and only if it is the receive after a fold, the queue was reset since the peek, and that release is at the head |
| `HidQueue.ReleaseMayBeEaten` | components/kvm_hid/usb_hid.c:1502-1511 | A concrete schedule, with 192 idle moves waiting, a reset between peek and receive and the release received in place of the move: everybody has finished and the key is still down |
| `HidQueue.ReleaseGetsIn` | components/kvm_hid/usb_hid.c:1735-1751 | A release that finds the queue full gets in after the reset unless a whole queue of other messages gets in between |
| `HidQueue.ReleaseHappens` | components/kvm_hid/usb_hid.c:1470-1514 | A release queued at any moment is carried out by a worker left alone if and only if the worker is not about to receive in place of a message that a reset swept away with all the others |
| `HidQueue.WorkerKeepsStream` | components/kvm_hid/usb_hid.c:1470-1514 | Sent, pending and waiting messages stay one stream in order over every worker step, with two exceptions that each drop the head: a message received for an unplugged target, and the receive after a fold if and only if the queue was reset since the peek and filled again |
| `HidQueue.ReportsAreWhatWasTaken` | components/kvm_hid/usb_hid.c:1470-1514 | Over every run the messages in the reports are the messages received for a plugged target, in order, with the one folded and still to be received, if and only if every receive after a fold took the message the peek saw |
| `HidQueue.ProducersAppend` | components/kvm_hid/usb_hid.c:1569-1576 | Producers add at the end; only a release that finds the queue full throws away what waited |
| `HidQueue.PortIsWhatWasSent` | components/kvm_hid/usb_hid.c:1429-1468 | Over every run the target's state is that of the groups sent so far, in order |
| `HidQueue.EveryRunKeepsMeaning` | components/kvm_hid/usb_hid.c:1337-1389 | Over every run of producers, callers and worker, with producers between the worker's peek and its receive: the reports sent, with the one being built, mean what the messages folded into them meant, and the target ends as if each had been sent by itself; these are the messages received if and only if every receive after a fold took the message the peek saw |
| `HidQueue.EveryGroupingHappens` | components/kvm_hid/usb_hid.c:1470-1514 | Every grouping the claims range over is produced by some schedule |
| `HidDriver.Driver.Add` | components/kvm_hid/usb_hid.c:1569-1576 | A message is appended, or dropped when the queue is full |
| `HidDriver.Driver.TrySend` | components/kvm_hid/usb_hid.c:1735-1751 | The first try of a release queues it, or counts a caller that found the queue full |
| `HidDriver.Driver.ResetQueue` | components/kvm_hid/usb_hid.c:1735-1751 | The reset is the model's: the queue is empty, what the worker has folded stays |
| `HidDriver.Driver.SendAgain` | components/kvm_hid/usb_hid.c:1735-1751 | The second try is the model's: the release is last, or given up when the queue is full again |
| `HidDriver.Driver.RequestRelease` | components/kvm_hid/usb_hid.c:1735-1751 | With nobody in between the release ends up last in the queue, after a reset when the queue was full, and is the model's steps |
| `HidDriver.Driver.MergeMouse` | components/kvm_hid/usb_hid.c:1337-1389 | Two messages fold exactly if both are moves of one pointer, no nudge and no button down; the report then has the newest place or the summed motion, and the scrolls summed and cut to 127 on their own side |
| `HidDriver.Driver.EmitRel` | components/kvm_hid/usb_hid.c:1165-1185 | The report sent has the buttons, wheel and pan asked for and dx and dy each at the nearest value int16 holds, and nothing else of the target moves; it is the step of the target model |
| `HidDriver.Driver.EmitReleaseAll` | components/kvm_hid/usb_hid.c:1309-1331 | Every interface offered is idle afterwards, field by field, and the reports are the release step of the target model |
| `HidDriver.Driver.DispatchMessage` | components/kvm_hid/usb_hid.c:1429-1468 | Whatever the message, each interface offered shows what it asks for, field by field, and everything else is as it was; and that is what the model says |
| `HidDriver.Driver.Take` | components/kvm_hid/usb_hid.c:1484-1501 | Taking the head of the queue is the model's receive step |
| `HidDriver.Driver.PeekHead` | components/kvm_hid/usb_hid.c:1502-1509 | The first look folds the head in exactly when it goes and leaves it in the queue: the model's peek step |
| `HidDriver.Driver.TakeHead` | components/kvm_hid/usb_hid.c:1510-1511 | The receive takes whatever is the head by then: the model's second look |
| `HidDriver.Driver.WorkerPass` | components/kvm_hid/usb_hid.c:1470-1514 | One pass is a receive, then looks and receives for as long as they fold, with any steps of other tasks before each look and between each look and its receive, then a send |
| `Resampling.CapNeverCuts` | components/kvm_audio/resample.c:12-37 | A block of at most rate/200 frames never asks for more than the cap, whatever the carry |
| `Resampling.StreamingIsOneShot` | components/kvm_audio/resample.c:12-37 | Over any number of same-rate blocks after a reset the output is the one-shot interpolation of all input, the carry is N*step - M*65536 and lies in [0, step) |
| `Resampling.OutputIsInterpolated` | components/kvm_audio/resample.c:18-31 | Output j of the whole input exists exactly if j steps fall below its end, and on either channel it is the weighted mean, rounded down, of the frame they fall in and the one before |
| `Resampling.StepIsTheRate` | components/kvm_audio/resample.c:14-14 | The step is the rate over 48000 in 16.16, so output j stands j/48000 s into the input, less than j/65536 of a frame early |
| `Resampling.SameRatePassesThrough` | components/kvm_audio/resample.c:12-37 | A 48 kHz source comes through unchanged, one frame late |
| `Resampling.OutputIsBetweenNeighbours` | components/kvm_audio/resample.c:12-37 | Every output sample lies between its two input neighbours |
| `Resampling.Mix` | components/kvm_audio/resample.c:12-37 | The value is the mean of the two samples weighed by the fraction, rounded down for either sign, and between the two |
| `Resampling.Resampler.Reset` | components/kvm_audio/resample.c:7-10 | A reset leaves no carry and the step of the rate |
| `Resampling.Resampler.ResampleBlock` | components/kvm_audio/resample.c:12-37 | The loop writes the block's interpolation, each sample the weighted mean of its neighbours, and leaves the exact carry |
| `OpusTimeline.PlacementIsTight` | components/kvm_audio/opus.c:309-318 | A kept frame is within the slack of its due position and exactly at it after a filled gap or a cut overlap, negative due positions included |
| `OpusTimeline.FramesAtIs` | components/kvm_audio/opus.c:208-211 | The frame of a time is the one it falls in counted from the session's origin, and no other; before the origin the count rounds toward it |
| `OpusTimeline.BlockIsPlaced` | components/kvm_audio/opus.c:311-318 | A block within 20 ms of the end goes right behind it, one further on after silence up to its frame, and of one earlier the part that is already filled is left out |
| `OpusTimeline.QuietIsFilled` | components/kvm_audio/opus.c:296-302 | A quiet moment fills the stream with silence up to the frame 400 ms before it, and no further |
| `OpusTimeline.DriftIsBounded` | components/kvm_audio/opus.c:289-319 | Over every run of blocks and silences every kept frame is within the slack of its due position |
| `OpusTimeline.StreamIsKeptSound` | components/kvm_audio/opus.c:286-320 | The sound in the stream is exactly the kept input in order; all else is silence |
| `OpusPackets.PacketsConserve` | components/kvm_audio/opus.c:151-205 | written == packets*960 + have, and packets followed by the partial buffer are exactly what was put in |
| `OpusPackets.SilenceShortcutIsUnseen` | components/kvm_audio/opus.c:173-205 | Two sessions cut from one line, however each made its silent packets, have the same packets, the same heard flags and the same frames left over; the browser gets the same of both when the encoder does the same with the packets that are heard |
| `OpusPackets.ResyncMarksGaps` | components/kvm_audio/opus.c:112-170 | Within a session a browser packet is marked if and only if it is not the one right after the one before |
| `OpusPackets.BrowserGapsAreMarked` | components/kvm_audio/opus.c:112-170 | Across silence, encoder failures and restarts two packets in a row differ by exactly 960 in ts modulo 2^32 and 20 ms in start unless the second is marked |
| `OpusPackets.HeardIsDelivered` | components/kvm_audio/opus.c:112-149 | The browser gets packet k exactly when it was marked heard and encoded |
| `OpusPackets.LastFrameDecides` | components/kvm_audio/opus.c:173-205 | A packet is heard if and only if its last frame is sound and the encoder gave something |
| `OpusPackets.MostlySoundIsNotHeard` | components/kvm_audio/opus.c:173-205 | Concrete blocks, 959 frames of sound and one of made-up silence, become one packet that is not heard, whatever the encoder does |
| `OpusTask.Packetiser.Open` | components/kvm_audio/opus.c:289-294 | A session starts with an empty stream, its origin now, and the first packet marked as after a gap |
| `OpusTask.Packetiser.Stamp` | components/kvm_audio/opus.c:151-156 | Packet k is stamped k times 20 ms and k times 960 frames after the origin, modulo 2^32 |
| `OpusTask.Packetiser.Deliver` | components/kvm_audio/opus.c:112-149 | The browser's packets are the delivered ones with their stamps and marks, and the gap flag follows them |
| `OpusTask.Packetiser.Encode` | components/kvm_audio/opus.c:158-170 | One more packet from the buffer; a failure only sets the gap flag |
| `OpusTask.Packetiser.PutSome` | components/kvm_audio/opus.c:173-205 | One round of put moves exactly the frames that fit, sound or silence |
| `OpusTask.Packetiser.Put` | components/kvm_audio/opus.c:173-205 | The stream grows by exactly the frames given |
| `OpusTask.Packetiser.PutBlock` | components/kvm_audio/opus.c:303-319 | A block is placed as the timeline model says |
| `OpusTask.Packetiser.KeepUp` | components/kvm_audio/opus.c:296-302 | Silence is added up to the lag when nothing comes |
| `OpusTask.Packetiser.Session` | components/kvm_audio/opus.c:281-320 | A session's task over any events, with or without a ready silent packet, builds the line of those events |
| `OpusTask.SessionsSoundTheSame` | components/kvm_audio/opus.c:173-205 | Two sessions given the same events, one with a ready silent packet and one without: the same packets in the same order, the same sound left, and the browser gets the same with the same stamps when the encoder does the same with the packets that are heard |
| `OpusReader.ReaderMissesExactly` | components/kvm_audio/opus.c:117-127 | With the refused send, the drop and the second send as steps that the reader's takes may fall between: a reader misses one packet for each drop that found one, and has every packet sent, in order, if and only if there was no such drop |
| `OpusReader.FullQueueLosesExactly` | components/kvm_audio/opus.c:117-127 | A send with n takes before its drop loses a packet if and only if the queue was full and n is below its depth |
| `OpusReader.GapsExactly` | components/kvm_audio/opus.c:117-127 | Over every schedule what a reader has, with the packet that comes next, has a gap if and only if a drop found a packet after the reader had taken one; packets lost before that leave none |
| `OpusReader.GapsAreMarkedExactly` | components/kvm_audio/opus.c:117-127 | So every gap a reader sees is marked, for every marking, if and only if no such drop was made |
| `OpusReader.OverflowIsNotMarked` | components/kvm_audio/opus.c:117-127 | A concrete schedule where a full queue loses a packet that no mark shows |
| `DeviceSettings.StoredValueIsLookedUp` | components/kvm_config/kvm_profiles.c:312-324 | Delete-then-add makes the value the one looked up, for every value, if and only if the object does not hold the key twice |
| `DeviceSettings.StoreKeepsOthers` | components/kvm_config/kvm_profiles.c:312-324 | It changes no other key |
| `DeviceSettings.MergeMeans` | components/kvm_config/kvm_profiles.c:366-393 | A merge gives a key its first non-null value, checked; drops a key that is only null; leaves the rest |
| `DeviceSettings.MergeRepeats` | components/kvm_config/kvm_profiles.c:366-393 | It leaves a key twice if and only if the request gives it two values |
| `DeviceSettings.OverlaidMeans` | components/kvm_config/kvm_profiles.c:565-569 | Values put over a new profile one by one: the last of a key wins and no key is ever held twice |
| `DeviceSettings.ProfileValue` | components/kvm_config/kvm_settings.c:812-846 | Whatever a profile accepts belongs to a per-profile setting and fits as it is stored |
| `DeviceSettings.ProfileTakesExactly` | components/kvm_config/kvm_settings.c:812-846 | A profile takes a value exactly if the key may differ by profile and the value is of its kind and in range: a flag as 1 or 0, a number and a text as they are, a choice by its first place among the names |
| `DeviceSettings.RangeIsTheRows` | components/kvm_config/kvm_settings.c:694-722 | In range is 0 or 1 for a truth value, the table's bounds for a number or a choice, the table's length for a text |
| `DeviceProfiles.EveryRunStaysInRange` | components/kvm_config/kvm_settings.c:105-127 | After any sequence of calls every value in effect is in its declared range or length |
| `DeviceProfiles.NextKeepsOk` | components/kvm_config/kvm_profiles.c:495-698 | Every call keeps: the active id is a used slot, Default is slot 0, Default's values are in range, names and rules fit, unused slots are empty |
| `DeviceProfiles.PutTakesEffect` | components/kvm_config/kvm_settings.c:283-359 | Setting one value moves no other and takes effect when the profile holds the key at most once |
| `DeviceProfiles.SettingHoldsExactly` | components/kvm_config/kvm_settings.c:283-359 | For a setting with more than one value: every value holds if and only if it goes to Default or the profile holds the key at most once |
| `DeviceProfiles.TakesHoldExactly` | components/kvm_config/kvm_profiles.c:312-324 | One value set is the one looked up if and only if it goes to Default, or to a profile that holds the key at most once or holds that value again behind the first |
| `DeviceProfiles.CustomShieldsDefault` | components/kvm_config/kvm_profiles.c:495-698 | While a custom profile is active no call but a reset changes Default's values of per-profile settings |
| `DeviceProfiles.CustomRunShieldsDefault` | components/kvm_config/kvm_profiles.c:495-698 | The same over whole runs |
| `DeviceProfiles.ThereAndBack` | components/kvm_config/kvm_profiles.c:675-698 | Selecting another profile and selecting back leaves every value in effect as it was |
| `DeviceProfiles.ACopyChangesNothing` | components/kvm_config/kvm_profiles.c:495-585 | A profile made from the current one without values of its own changes nothing in effect; it fails exactly on a bad name or a full table |
| `DeviceProfiles.MadeHolds` | components/kvm_config/kvm_profiles.c:495-572 | A new profile has each key at its last non-null value in the request, checked, else where it started from: the current profile, the preset or nothing; a null there drops nothing |
| `ProfileBodies.MadeStartsFrom` | components/kvm_config/kvm_profiles.c:500-527 | Before the values of the body a new profile has those of the current one, of the preset named, or none |
| `ProfileBodies.MadeIsNamed` | components/kvm_config/kvm_profiles.c:515-536 | A new profile has the name and the rule of the body, cut to what is kept, else its preset's, else New profile and no rule |
| `ProfileBodies.MakingIsRefusedExactly` | components/kvm_config/kvm_profiles.c:500-559 | A new profile is refused exactly for an unknown preset, then a bad name or values, then a full table, with these errors in this order |
| `DeviceProfiles.ChangedHolds` | components/kvm_config/kvm_profiles.c:612-640 | A changed profile lacks what the request unsets or sets to null, has what it sets, checked, and keeps the rest |
| `ProfileBodies.ChangeIsRefusedExactly` | components/kvm_config/kvm_profiles.c:604-640 | A change is refused exactly for a bad name, values a profile may not have or an unset that is no list; else name and rule are the body's or as they were |
| `DeviceProfiles.DeletingBringsDefaultBack` | components/kvm_config/kvm_profiles.c:650-673 | Deleting the active profile brings Default's values back, deleting another changes none |
| `DeviceProfiles.RestartKeepsValues` | components/kvm_config/kvm_profiles.c:248-305 | A restart changes no value in effect |
| `DeviceProfiles.NextKeepsClean` | components/kvm_config/kvm_profiles.c:495-698 | No call leaves a key twice in a profile unless an update gives it two values |
| `DeviceProfiles.AskingOnceTakesHold` | components/kvm_config/kvm_profiles.c:366-393 | Over every run from a state without repeated keys, in which no update gives a key two values, every value set takes hold |
| `DeviceProfiles.SetValuesHold` | components/kvm_config/kvm_settings.c:283-359 | After any calls without such an update, any value set takes effect and is still there after a restart |
| `DeviceProfiles.KeyGivenTwiceGoesStale` | components/kvm_config/kvm_profiles.c:366-393 | A concrete update after which the value next set is not the one looked up |
| `SettingsStore.MergeSet` | components/kvm_config/kvm_profiles.c:366-393 | The three loops compute the merge, and nothing when a value fails |
| `SettingsStore.OverlayEach` | components/kvm_config/kvm_profiles.c:565-569 | The loop lays the values over one by one |
| `SettingsStore.Store.constructor` | components/kvm_config/kvm_settings.c:155-205 | A device never used shows the defaults |
| `SettingsStore.Store.OverlayLoad` | components/kvm_config/kvm_settings.c:766-801 | changed[] is exactly which values readers see moved, the result is exactly whether one that moved needs a restart, and the overlay is exactly the profile's own fitting values |
| `SettingsStore.Store.SwitchTo` | components/kvm_config/kvm_profiles.c:229-238 | After a switch every reader sees the profile's own valid value, else Default's |
| `SettingsStore.Store.SetInt` | components/kvm_config/kvm_settings.c:283-320 | Errors exactly as listed; else readers see the value at once, no other moves, and memory and flash follow |
| `SettingsStore.Store.SetStr` | components/kvm_config/kvm_settings.c:322-359 | The same for strings, with the length limit |
| `SettingsStore.Store.ProfilesStore` | components/kvm_config/kvm_profiles.c:312-324 | The value replaces the first of its key in the active profile, in memory and flash |
| `SettingsStore.Store.Create` | components/kvm_config/kvm_profiles.c:495-585 | Refusals leave everything as it was; else the profile made stands in the first free slot and no other slot moves, in effect and held for the device attached unless the body says not to select it, with exact reboot |
| `SettingsStore.Store.Make` | components/kvm_config/kvm_profiles.c:495-552 | The profile made and the refusal are those of the request, in the source's order of checks |
| `SettingsStore.Store.Update` | components/kvm_config/kvm_profiles.c:587-648 | Refusals leave everything as it was; else only that profile changes, and the overlay follows if it is active |
| `SettingsStore.Store.Delete` | components/kvm_config/kvm_profiles.c:650-673 | The slot is emptied and no other moves; Default takes over, not by hand, if it was active |
| `SettingsStore.Store.Select` | components/kvm_config/kvm_profiles.c:675-698 | The profile asked for is active, by hand or not as asked, held for the device attached unless it repeats the choice in effect, and a restart is needed exactly if a value that moved for readers asks for one |
| `SettingsStore.Store.Reset` | components/kvm_config/kvm_settings.c:389-420 | Every value is the table's default, no profile is left, flash is empty, and only the device attached is still known |
| `SettingsStore.Store.Boot` | components/kvm_config/kvm_profiles.c:248-305 | Reading flash back gives the same values and profiles, every reader in agreement whatever happened before, by hand only if the profile is not Default |
| `SettingsStore.LoadedValueFits` | components/kvm_config/kvm_settings.c:105-127 | Whatever flash holds under a key, the value loaded is in range or length |
| `SettingsStore.SetIsTakenExactly` | components/kvm_config/kvm_settings.c:283-359 | A value is taken exactly if some setting has the key and the value is of its kind and in its range or length; not found exactly if none has |
| `SettingsStore.Store.LoadValues` | components/kvm_config/kvm_settings.c:105-127 | Loading gives back every stored value and the default where none is stored |
| `SettingsStore.Store.PickProfile` | components/kvm_config/kvm_profiles.c:700-715 | The slot of the best rule |
| `SettingsStore.Store.DeviceSettled` | components/kvm_config/kvm_profiles.c:829-858 | The device is noted; a choice held for it stays, else the profile the rules pick is active, not by hand; and whether it changed |
| `SettingsStore.Store.RestartAllowed` | components/kvm_config/kvm_profiles.c:876-891 | Allowed exactly below two, and counted |
| `SettingsStore.Store.UptimeOk` | components/kvm_config/kvm_profiles.c:893-899 | The count starts again |
| `StoreRuns.SetAgreesExactly` | components/kvm_config/kvm_settings.c:283-359 | After one value is set every reader sees what is looked up if and only if it takes hold |
| `StoreRuns.Do` | components/kvm_config/kvm_profiles.c:495-698 | Each call of set, create, update, delete, select, reset, restart and notice, on a store whose readers see what is looked up, leaves the store the model says, and readers in agreement if and only if what is set takes hold |
| `StoreRuns.DoAll` | components/kvm_config/kvm_profiles.c:495-698 | Over any sequence of those calls the overlay agrees with the lookup after each if and only if all that is set takes hold, and then the store is the model's run |
| `StoreRuns.DoAllClean` | components/kvm_config/kvm_profiles.c:495-698 | So over every sequence from a clean store in which no update gives a key two values, overlay and lookup agree, no key is repeated, and the store is the model's run |
| `SettingsApply.ApplyJson` | components/kvm_config/kvm_settings.c:666-746 | Accepted exactly if the body is an object, every item's key is known and its value of the kind and in range, and the pins do not conflict; then each setting named holds its last value in the body, text as text, flags as 1 or 0, numbers as they are, and no other moved; refused, nothing changes |
| `SettingsApply.FirstErrorIs` | components/kvm_config/kvm_settings.c:684-724 | The error is that of the first item that does not fit: unknown key, or a value of another kind, too long or out of range |
| `SettingsApply.WantedIsGiven` | components/kvm_config/kvm_settings.c:730-742 | What an accepted body leaves, told by positions in the body alone: the last item of each key, as its kind has it |
| `SettingsApply.WrittenBackChangesNothing` | components/kvm_config/kvm_settings.c:666-746 | What is in effect, written as one body and applied, fits and moves nothing, and is accepted if and only if the wiring is sound |
| `SettingsApply.CheckItems` | components/kvm_config/kvm_settings.c:684-724 | The first item that fails decides |
| `SettingsApply.CheckPins` | components/kvm_config/kvm_settings.c:628-664 | Refuses exactly when the claims of the imagined result conflict |
| `SettingsApply.PinCheckIsExact` | components/kvm_config/kvm_settings.c:584-664 | When the first and the last value the request gives each pin setting read as the same number: accepted if and only if every visible pin the request names is on no reserved hardware and shared with no other visible pin but a bus line |
| `SettingsApply.AcceptedPinsAreSound` | components/kvm_config/kvm_settings.c:584-664 | The promise for one named pin and any other visible one |
| `SettingsApply.WiringIsSoundExactly` | components/kvm_config/kvm_settings.c:598-664 | The wiring a request results in, of all visible pins, is sound if and only if the check accepts it and the visible pins it does not name are sound among themselves |
| `SettingsApply.AcceptedKeepsWiring` | components/kvm_config/kvm_settings.c:598-664 | Sound wiring stays sound over every accepted request that shows no pin it does not name |
| `SettingsApply.KeysGivenOnceAgree` | components/kvm_config/kvm_settings.c:584-596 | A body without repeated keys meets that condition |
| `SettingsApply.ShowingRevealsAClash` | components/kvm_config/kvm_settings.c:607-617 | A concrete body that only shows a stored pin and is accepted with two pins equal |
| `SettingsApply.PinNamedTwiceEscapes` | components/kvm_config/kvm_settings.c:584-596 | A concrete body with a repeated key that is weighed by its first value and applied by its last |
| `SettingsApply.SwappedPinsAreWeighedRightly` | components/kvm_config/kvm_settings.c:584-596 | A concrete body that names two pins twice, the second time the other way round, and is weighed rightly whatever is stored and on every board: that condition is enough and not needed |
| `SettingsApply.PinCheckIsRightExactly` | components/kvm_config/kvm_settings.c:584-664 | For any request, whatever it repeats: the check is right on every board if and only if the claims weighed and those of the last values both clash, or neither does and both put something on the same pins |
| `SettingsApply.SameOnEveryBoardExactly` | components/kvm_config/pin_conflict.c:50-81 | Two lists of claims are judged the same on every board if and only if both clash, or neither does and their changing pins are the same |
| `PinConflict.FindConflict` | components/kvm_config/pin_conflict.c:24-81 | A conflict is reported if and only if a changing claim is on reserved hardware or two claims on one pin, one changing, are not a shared bus line; what is reported is there, hardware first, the changing one named first |
| `PinConflict.OnlyChangesAreRefused` | components/kvm_config/pin_conflict.c:62-65 | What is stored already never refuses a write |
| `PinConflict.SharedLinesAre` | components/kvm_config/pin_conflict.c:12-22 | The data lines of display and clock may be one pin, and their clock lines, and nothing else |
| `ProfileMatch.Score` | components/kvm_config/profile_match.c:35-57 | A score is given exactly when every part asked for fits and something is asked, and is the weight of what was asked |
| `ProfileMatch.FitsExactly` | components/kvm_config/profile_match.c:35-57 | A rule fits exactly if it asks for something, and the name begins or the vendor is as asked if either is asked for, and the system is as asked, letters in either case; the score is 2 for the first and 1 for the second |
| `ProfileMatch.RuleScore` | components/kvm_config/profile_match.c:15-57 | The loops compute the score |
| `ProfileMatch.PickRule` | components/kvm_config/profile_match.c:59-70 | The best fitting rule, the first of equals, -1 exactly when none fits |
| `ProfileMatch.PickIsBest` | components/kvm_config/profile_match.c:59-70 | The same about the specification |
| `ProfileChoice.DefaultIsPickedExactly` | components/kvm_config/kvm_profiles.c:700-715 | Default is picked if and only if no used profile's rule fits |
| `ProfileChoice.PickedFitsBest` | components/kvm_config/kvm_profiles.c:700-715 | No used profile fits better than the one picked, and none before it as well |
| `ProfileChoice.CecPartIsTheCecPart` | components/kvm_config/kvm_profiles.c:785-797 | The part kept of a fingerprint is what CEC said, and empty exactly when it said nothing |
| `ProfileChoice.CecPartTellsDevicesApart` | components/kvm_config/kvm_profiles.c:785-797 | Two devices have the same part if and only if CEC says the same name and vendor of both |
| `ProfileChoice.FingerprintTellsDevicesApart` | main/profile_auto.c:102-106 | Two devices have the same fingerprint if and only if all that is seen of them is the same |
| `ProfileChoice.SettledKeepsOk` | components/kvm_config/kvm_profiles.c:829-858 | A settle leaves a good state good, and says the profile changed exactly when it did |
| `ProfileChoice.SettlingTwiceIsOnce` | components/kvm_config/kvm_profiles.c:829-858 | Settling the same device twice changes nothing the second time |
| `ProfileChoice.ChoiceOutlivesSettlingExactly` | components/kvm_config/kvm_profiles.c:829-858 | From every state, for both ways to choose by hand: the choice outlives the next device that settles if and only if it was noted for that device or the rules pick the same |
| `ProfileChoice.HandChoiceOutlivesARestartExactly` | components/kvm_config/kvm_profiles.c:298-304 | A hand choice outlives a restart if and only if it was not Default or the rules pick Default |
| `ProfileChoice.DefaultByHandIsForgotten` | components/kvm_config/kvm_profiles.c:298-304 | From a device never used: a profile is made for a device, Default is chosen by hand while it is there, and a restart undoes that choice |
| `ProfileAuto.RestartHasAReason` | main/profile_auto.c:83-146 | A restart is made only for a profile other than the one at boot, not chosen by hand, where readers see other boot-time values than those taken, on a device still for ten seconds and up for twenty |
| `ProfileAuto.RestartIsMadeExactly` | main/profile_auto.c:119-144 | A restart is made exactly when the device kept still for ten seconds, twenty are up, an automatic profile other than the one at boot is active and readers see other boot-time values, and fewer than two were made since the count began; refused, what is in effect is taken as the boot values |
| `ProfileAuto.SecondMovesTheProfileExactly` | main/profile_auto.c:83-118 | A second moves the profile exactly when a device has been the same for three and was not acted on, no choice by hand is held for it and the rules pick another; and how long it kept still, what it acted on and the 300 s mark follow as listed |
| `ProfileAuto.RestartsAreBounded` | main/profile_auto.c:83-146 | Over every run of seconds, power cycles and calls, whatever boot-time values readers see: at most two restarts per clear of the count, plus two |
| `ProfileAuto.CountIsTheRestarts` | main/profile_auto.c:83-146 | Between clears the count in flash is exactly the restarts made, and at most two |
| `ProfileAuto.HandChoiceHoldsExactly` | main/profile_auto.c:83-146 | Over every run of seconds and power cycles a hand choice is still that choice if and only if no other fingerprint settled and no power went while it was Default; and as long as it is, no restart is made |
| `ProfileAuto.ChoosingByHandHoldsExactly` | components/kvm_config/kvm_profiles.c:561-577 | From every state, for a selection and for a profile made and put in effect: a new device that then stays four seconds leaves the choice alone if and only if the choice was noted for that device or the rules pick the same; it is noted for the device attached, but for the one noted before where none is or where the choice was in effect already |
| `ProfileAuto.FirstHandChoiceIsUndone` | main/profile_auto.c:97-99 | From first use, the first profile made by hand with a device attached all the time is held for no device, and four seconds later Default is back |
| `ProfileAuto.SameChoiceAgainIsNone` | components/kvm_config/kvm_profiles.c:675-698 | From every state: a choice in effect that is made again for a new device is no choice, and the rules decide when that device settles |
| `ProfileAuto.SameChoiceAgainIsUndone` | components/kvm_config/kvm_profiles.c:675-698 | A concrete run from first use where a profile chosen again for the device attached gives way to Default when that device settles |
| `ProfileAuto.ADeviceThatStaysGetsItsProfile` | main/profile_auto.c:107-126 | A new device seen four seconds in a row has the profile that fits it best, unless the one in effect was chosen by hand for it |
| `ProfileTask.Task.Second` | main/profile_auto.c:83-146 | On any sound store, also one whose readers see a stale value: one round of the loop is the model's second for the boot-time values readers see, and readers that agree with the model still do |
| `ProfileTask.Task.Restart` | main/profile_auto.c:148-156 | A restart reads the store back and starts the task anew, readers in agreement |
| `ProfileTask.Task.BootValuesMoved` | main/profile_auto.c:55-63 | Whether a boot-time value that readers see differs from the one taken; where readers agree with the model, whether the profile's own does |
| `ProfileTask.Task.TakeBootValues` | main/profile_auto.c:47-53 | The values taken are those readers see, and the profile the active one, on any sound store |
| `ProfileAuto.BootReadIs` | main/profile_auto.c:20-53 | The boot-time values are those in effect of the gamepad, the legacy pad and the display, in this order |
| `ProfileTask.BootsAgree` | components/kvm_config/kvm_settings.c:216-230 | Where readers agree with the model, the boot-time values they see are those of the active profile, else Default's |
| `DeviceRuns.Happen` | main/profile_auto.c:83-146 | One second with the restart it asks for, one power cycle or one call over task and store is the model's event, and readers see what is looked up afterwards if and only if what is set takes hold |
| `DeviceRuns.HappenAll` | main/profile_auto.c:83-146 | Over any run of seconds, power cycles and calls task and store go the way of the model's run, with readers in agreement with the lookup after each event if and only if every value set takes hold |
| `LogRing.Log.Write` | components/kvm_log/kvm_log.c:71-92 | The stream grows by the text, or by the last 12288 bytes of a longer one, and the ring mirrors it |
| `LogRing.Log.Read` | components/kvm_log/kvm_log.c:249-281 | Returns the newest bytes in order, as many as there are up to cap-1 and the ring, with the terminator |
| `LogRing.OldestSurvivesExactly` | components/kvm_log/kvm_log.c:152-177 | After more bytes were written, the slot of the oldest undrained byte holds it if and only if at most RING_BYTES less the undrained were written; else it holds a later byte of the stream |
| `LogDrain.Drain.DrainOnce` | components/kvm_log/kvm_log.c:152-177 | With other writes before each byte copied: when they fit beside what is copied, the tail grows by exactly the undrained bytes, or by a note whose number is the bytes missing and all that the ring holds |
| `LogDrain.Drain.Follow` | components/kvm_log/kvm_log.c:152-177 | Over a run of passes, with any writes between them and while they copy, as long as each has room: the tail after its seed is log text and notes that account for every byte of the stream, each text standing where it says and each note reading as the number missing; and without a note as long as no pass comes more than the ring behind |
| `LogDrain.Drain.StartTail` | components/kvm_log/kvm_log.c:188-212 | The tail starts with the newest of the ring; draining goes on from before what was written between the two looks |
| `LogDrain.Drain.StartAndFollow` | components/kvm_log/kvm_log.c:152-212 | Seed and following passes, with room and none behind: the tail is one contiguous piece of the stream from the oldest byte held if and only if nothing was written between the two looks |
| `LogDrain.SeedRepeatsExactly` | components/kvm_log/kvm_log.c:188-212 | Seed and following bytes are the stream with what was written between the looks standing twice, so the stream itself if and only if nothing was |
| `LogDrain.StartRepeatsALine` | components/kvm_log/kvm_log.c:188-212 | A concrete line written between the two looks that stands in the tail twice |
| `LogDrain.TellDrained` | components/kvm_log/kvm_log.c:152-177 | A pass adds to the story of the tail exactly the stretch or the note and stretch it copied |
| `LogTail.NoNotesMeansNoGaps` | components/kvm_log/kvm_log.c:152-177 | A tail without notes is one unbroken stretch of the stream |
| `LogTail.NoteStatesTheCount` | components/kvm_log/kvm_log.c:162-168 | Different losses never print the same note |
| `LogTail.NoteReadsBack` | components/kvm_log/kvm_log.c:162-166 | The number that the note of a loss prints, read between the fixed texts, is the loss |
| `LogTail.NothingGoesUncounted` | components/kvm_log/kvm_log.c:152-177 | The bytes of a tail that are no notes and the numbers in its notes add up to the positions passed |
| `DecimalText.DecimalReadsBack` | components/kvm_log/kvm_log.c:162-168 | A printed count reads back as itself |
| `PositionalReading.ReaderReassembles` | components/kvm_log/kvm_log.c:214-240 | A reader never more than the ring behind reassembles the stream with no loss and no repeat, over any interleaving of appends and reads |
| `PositionalReading.ReaderKnowsItsLoss` | components/kvm_log/kvm_log.c:214-240 | It kept up if and only if it has as many bytes as positions it moved over |
| `StreamRing.Ring.Append` | components/kvm_netlog/kvm_netlog.c:47-55 | The ring mirrors the stream |
| `StreamRing.Ring.ReadFrom` | components/kvm_netlog/kvm_netlog.c:263-289 | A position within the last 64 KB is read from there, an older one from the oldest byte held, one beyond the end gives nothing; as many bytes as there are or fit, and the position after them |
| `NetLines.LinesComeBack` | components/kvm_netlog/kvm_netlog.c:109-123 | Lines written one after another, each ended by a newline or a carriage return, come back in order, the empty ones left out, each cut to its first 199 characters, and what is behind them is kept |
| `NetLines.PacketsKeepTheirLines` | components/kvm_netlog/kvm_netlog.c:215-222 | No line runs from one packet into the next: the lines of the log are the lines of its packets |
| `NetLines.Scanner.ScanLines` | components/kvm_netlog/kvm_netlog.c:109-123 | The lines checked are exactly the complete lines of the data |
| `NetLines.Scanner.Packet` | components/kvm_netlog/kvm_netlog.c:215-222 | Each packet is checked as its own lines under its own sender, and the stream grows by it, with a newline added where it has none at its end |
| `AgentProtocol.AnswersAreNeverCrossed` | components/kvm_agent/kvm_agent.c:190-240 | In every interleaving of callers, timeouts, late answers and the reader task a call that returns ESP_OK has the line with its own id, ids of calls differ, and each copied line has exactly one owner |
| `AgentProtocol.AnswerInTimeIsReturned` | components/kvm_agent/kvm_agent.c:190-240 | The first line with the id of a call after its stale semaphore is cleared, be the request out or still being written, is what the call returns if and only if the write succeeds, over every continuation |
| `AgentProtocol.EarlyAnswerIsLost` | components/kvm_agent/kvm_agent.c:209-230 | A line with the id that comes after the id is set and before the stale semaphore is cleared is lost, and the call with it, on every continuation |
| `AgentCall.Agent.HandleAnswer` | components/kvm_agent/kvm_agent.c:93-125 | The slot, the waiting id and the semaphore change as the model's line step |
| `AgentCall.Agent.Call` | components/kvm_agent/kvm_agent.c:190-240 | Returns the first matching line after the stale semaphore is cleared, and fails exactly when there is none, one came earlier, or nothing could be sent |
| `AgentCall.FirstStands` | components/kvm_agent/kvm_agent.c:109-121 | The line that answers is the first with the id |
| `AgentLines.ChunksDoNotMatter` | components/kvm_agent/kvm_agent.c:127-149 | How the bytes are cut into reads makes no difference |
| `AgentLines.LinesComeBack` | components/kvm_agent/kvm_agent.c:127-149 | Exactly the lines that fit are handed on, in order, and one that does not fit spoils no other |
| `AgentLines.LineReader.Receive` | components/kvm_agent/kvm_agent.c:127-149 | The byte loop is the framing function |
| `AgentLines.LineReader.Accept` | components/kvm_agent/kvm_agent.c:93-100 | The parser gets a line without its trailing carriage returns and blanks, and only one that starts an object |
| `ObjectScan.ObjectEnd` | components/kvm_notify/tg_chats.c:16-36 | The loop computes the matcher's end |
| `ObjectScan.ObjectEndsAtItsBrace` | components/kvm_notify/tg_chats.c:16-36 | For every well-formed object followed by any bytes it lands on that object's own closing brace |
| `ObjectScan.CutObjectHasNoEnd` | components/kvm_notify/tg_chats.c:16-36 | A well-formed object cut anywhere has no end |
| `KeySearch.FindKey` | components/kvm_notify/tg_chats.c:40-50 | The loop computes the search |
| `KeySearch.SeekIsFirst` | components/kvm_notify/tg_chats.c:40-50 | What is found is a match and none lies before it |
| `KeySearch.SearchFindsTheMember` | components/kvm_notify/tg_chats.c:40-50 | In a well-formed object the search finds the first member so named, in text order and at any depth, and never text inside a string value |
| `KeySearch.PlainNameIsTheKey` | components/kvm_notify/tg_chats.c:40-50 | A name without an escape is matched if and only if it is the key |
| `KeySearch.EscapedQuoteInANameFools` | components/kvm_notify/tg_chats.c:38-39 | A concrete member name that ends in an escaped quote and the key is taken for it |
| `RawCopy.CopyRaw` | components/kvm_notify/tg_chats.c:55-82 | The loop computes the copy; -1 exactly when there is no string there |
| `RawCopy.CopyKeepsWholeUnits` | components/kvm_notify/tg_chats.c:55-82 | Of a well-formed string the copy is a prefix of whole escapes and whole UTF-8 characters |
| `RawCopy.FitIsLongest` | components/kvm_notify/tg_chats.c:55-82 | It is the longest such prefix within the limit |
| `RawCopy.CopyKeepsWholeCharactersExactly` | components/kvm_notify/tg_chats.c:55-82 | With every surrogate escape in a pair, the copy keeps every pair whole if and only if the limit falls between the two escapes of none |
| `RawCopy.HalfACharacterIsKept` | components/kvm_notify/tg_chats.c:55-82 | Behind any text that leaves room for one escape and not for two, the copy ends in half a character |
| `RawCopy.ValueStandsThere` | components/kvm_notify/tg_chats.c:40-50 | Where the search stops stands that member's value |
| `ChatMeaning.RawReadsTheMember` | components/kvm_notify/tg_chats.c:121-135 | A field read is the named member's string cut to whole units, and nothing when it is no string |
| `ChatMeaning.IdReadsTheMember` | components/kvm_notify/tg_chats.c:104-112 | The id read is the member's number, saturated to 64 bits, and none when it is no number |
| `ChatMeaning.NumberIsRead` | components/kvm_notify/tg_chats.c:104-112 | The number of a member is its digits with its sign, cut to 64 bits on its own side |
| `ChatMeaning.ChatReadIsTheChatMeant` | components/kvm_notify/tg_chats.c:84-148 | Wherever a reply says "chat": and a well-formed object, the chat read is the one the object stands for |
| `ChatReply.ReplyIsReadAsMeant` | components/kvm_notify/tg_chats.c:84-148 | A well-formed reply is read as the chats that its members named chat stand for, at any depth, in the order of the text, and as nothing else; a chat needs its object right behind the colon and the colon right behind the name |
| `ChatMeaning.ReplyIsJson` | components/kvm_notify/tg_chats.c:137-147 | The reply is well-formed JSON that says of each chat its id, type and name |
| `ChatMeaning.SignedReadsBack` | components/kvm_notify/tg_chats.c:104-137 | An id that was printed reads back as itself for every 64-bit number, whatever follows |
| `ChatMeaning.ReplyReadsBack` | components/kvm_notify/tg_chats.c:137-147 | Of each chat in the reply the id field reads as its id, and type and name as they were taken, so chats with different ids differ in the reply |
| `ChatList.FirstOfEachIsRight` | components/kvm_notify/tg_chats.c:113-119 | Each id is listed once, by its first chat, and none is missing |
| `ChatList.FirstOfEachInOrder` | components/kvm_notify/tg_chats.c:113-119 | Each chat listed is the first of its id, in the order in which the ids came first |
| `ChatList.LimitedIs` | components/kvm_notify/tg_chats.c:86-102 | As many are listed as there are, up to the number asked for and 32, the first ones |
| `ChatList.ReadName` | components/kvm_notify/tg_chats.c:122-135 | The title, else the first name with the last behind a blank if there is one, else the user name, each of at most 128 bytes |
| `ChatList.ReadChat` | components/kvm_notify/tg_chats.c:103-135 | A chat is read exactly if its object has an id that begins with a number, which is its id; its type is cut to 23 bytes |
| `ChatList.ChatsFromUpdates` | components/kvm_notify/tg_chats.c:84-148 | The result is the first max_chats (at most 32) chats of distinct ids, in order; -1 if and only if that text does not fit in cap |
| `WearLevelling.RemoveWl` | components/fatfs/wl_fatfsgen.py:19-52 | The slicing and the counting loop compute the specification |
| `WearLevelling.CountRecords` | components/fatfs/wl_fatfsgen.py:19-52 | The loop counts exactly the records before the first one not written |
| `WearLevelling.CountEndsAtABlank` | components/fatfs/wl_fatfsgen.py:19-52 | Every record counted is not all erased bytes, and the count ends at one that is or at the end of the state |
| `WearLevelling.StateSizeIsExact` | components/fatfs/wl_fatfsgen.py:19-31 | A copy of the state takes not a sector more than its header and one record a sector need |
| `WearLevelling.MoveCountStands` | components/fatfs/wl_fatfsgen.py:33-35 | The count of rounds is the little-endian word at byte 8 of a header whose 28 reserved bytes are zero |
| `WearLevelling.RemoveUndoesWear` | components/fatfs/wl_fatfsgen.py:19-52 | For any dummy position marked by its records and any rotation up to the number of data sectors, the plain sectors come back in order |
| `WearLevelling.WalkingChangesNothing` | components/fatfs/wl_fatfsgen.py:19-52 | Any number of dummy-walk steps leaves the answer unchanged |
| `WearLevelBuild.WlImage.InitWl` | components/fatfs/wl_fatfsgen.py:158-221 | The image has the dummy sector, the data with the dump sectors of safe mode, both copies of the state and the config sector, each at its place, and removing the layer gives the data back |
| `MediaEvents.EventsAreNeverStale` | components/kvm_hid/mmc.c:252-293 | Over every run of changes and polls: a poll is answered with no event if and only if every poll since the last one answered for the media class found that medium; else with new media exactly when there is one, and removal otherwise |
| `MediaEvents.HostIsInformedExactly` | components/kvm_hid/mmc.c:271-293 | Over every run, with the length each poll takes: what the host makes of the events it received is the medium of the last answered poll after every step if and only if each poll that found another medium took the fifth byte |
| `MediaEvents.CutChangeStaysUnseen` | components/kvm_hid/mmc.c:271-293 | After a poll that found another medium and was cut below five bytes, every later poll answers no event while the medium stays, and the host's picture stays wrong |
| `MediaEvents.UnseenSwapIsSilent` | components/kvm_hid/mmc.c:252-268 | A change and back between polls is not reported |
| `MediaEvents.Drive.TrackMedia` | components/kvm_hid/mmc.c:252-268 | The fields change as the model's look |
| `MediaEvents.Drive.GetEventStatus` | components/kvm_hid/mmc.c:271-293 | The reply bytes, their cut to the host's length, and the pending event after it |

## Left out

- Hardware, USB, TinyUSB, FreeRTOS, sockets and flash drivers: tasks, queues and semaphores are atomic steps, time and what is attached are arguments, and reports handed to a mounted target arrive.
- Failures of allocation and of flash writes: the model takes every call as succeeding, and a profile that is used always has its object of values.
- The Opus encoder: for each packet of a session it gives something or fails, freely chosen; a packet's outcome does not depend on the packets before it.
- cJSON and printing to flash: a request is a parsed value; what is stored is read back unchanged. A JSON number is its 32-bit integer part, so what a cast does with numbers beyond that is not captured.
- 32-bit wrap of the relative motion sums: `MotionFits` bounds them for any chain of folds up to 65535; longer chains without a break are not bounded.
- 32-bit wrap of the log byte counter and of the caller ids: between two drains fewer than 2^32 bytes are taken as written, and ids are taken as unbounded.
- HidQueue.ReleaseIsNeverLost: false where the queue is reset between a peek that folded and its receive (`ReleaseMayBeEaten`), so it speaks of runs without such a reset; `ReleaseIsCarriedOutExactly` speaks of all. Both speak of a target that is mounted when the worker takes the release.
- `first_us` of a resampled block: the capture time of a block is an argument of the timeline.
- Bytes of the rings that change while the drain copies them are taken one at a time, each copy after any number of whole writes; kvm_log_read and kvm_log_start_tail take their copies whole.
- The ring buffer to the recorder in deliver, and when readers come and go.
- kvm_settings subscribers that write settings back: a subscriber is taken to change none.
- settings_overlay_notify, the schema and values printed for the console, migrate_update_url, the install id, and the suggestion of presets.
- Secrets, sections and help texts of the settings table: the table is any list of settings with distinct keys, defaults in range, at most 32 pin rows, and numbers where pins and visibility need them.
- Profiles that are damaged in flash: a stored profile is one these calls wrote.
- Uptime in the profile task: any number at each second, which covers the real clock.
- Text that is not well-formed JSON is covered by what the scanner's methods compute; only well-formed objects are given a meaning.
- FAT structure and the checksums of the wear-levelling state: plain images are sequences of sectors, checksums are bytes.
- WearLevelling.RemoveUndoesWear: for the default mode; in safe mode the two dump sectors stay at the end, which `InitWl` states.
- Two different media with one id are taken as the same, as the drive does.
- mqtt, wifi, ethernet, VPN, the coprocessor, CEC transmission, descriptors, EDID, thermal limits, the display and the icon tools: plumbing, data, or small beside the cores above.
