# lemonbar-status in Dafny

lemonbar-status writes one line of lemonbar markup per update. The line shows the
state of the machine:
- the MPD song;
- new mail;
- the trunk interface;
- the battery;
- the backlight brightness;
- the audio volume;
- the cached weather report;
- the clock.

The program keeps one optional text per information source in a fixed table, `infos[]`. A kernel event queue wakes it when:
- a timer fires;
- the mailbox or the weather cache changes;
- the MPD connection has data;
- the X relay thread writes a byte into a pipe.

Each event rewrites one slot of the table. After each batch of events one line is printed.

This project models two things:
- The table renderer and the event loop of `main.c`, and of the older all-right-aligned `lemonbar-status.c`.
- The text each provider computes from what its device, file or socket reports: `battery.c`, `mail.c`, `clock.c`, `weather.c`, `audio.c`, `mpd.c`, `net.c` and `x.c`.

`main.c` and `lemonbar-status.c` carry their own copies of some providers. One model serves each provider and its copies:
- The mail, battery, clock, weather and network copies do what the provider files do; only some names differ (`mail_file` for `mail_init`, `network_info` for `net_info`, `DATE_FORMAT`/`DATE_BUFLEN` for the clock constants of the same values).
- The audio and X copies differ in form. `audio_init` (main.c:431, lemonbar-status.c:699) and `brightness_init` (main.c:123, lemonbar-status.c:391) have no init-once guard. They hand their results back through out-pointers instead of module statics, and `audio_info`/`brightness_info` take those results as arguments. `brightness_init` does not start the relay thread; `main` does (main.c:695, lemonbar-status.c:944). `Audio.Mixer` and `X.Backlight` model the statics of audio.c and x.c.

Files (one module each):

- `cstring.dfy`: `CString`. Optional values for a NULL `char *`, and what `snprintf`/`strlcpy` leave in a fixed buffer (`Truncate`). It also defines the C string read from a buffer (`CStr`, up to the first NUL), and the text of `%d` and `%02d` with its parser.
- `render.dfy`: `Render`. A line is a sequence of pieces: fields, separators, alignment markup and the newline. `Layout` and `LegacyLayout` say which pieces each program prints. `OutputElements`, `OutputStatus` and `LegacyOutputStatus` are the cursor loops of the C code, proved against them.
- `eventloop.dfy`: `EventLoop`. The dispatch table as a state machine over the slot table and the queued change records. The providers are uninterpreted: the k-th answer of a slot's provider is `World.sample(slot, k)`.
- `multiplexer.dfy`: `Multiplexer`. The bootstrap registrations, and the class `StatusLoop`. Its `infos` and `kevIn` arrays are updated in place by methods proved against `EventLoop`.
- `battery.dfy`, `mail.dfy`, `clock.dfy`, `weather.dfy`, `audio.dfy`, `mpd.dfy`, `net.dfy`, `x.dfy`: one module per provider file.
  - Audio's device statics are the class `Audio.Mixer`.
  - x.c's statics are the class `X.Backlight`.
  - The MPD response is cut in place in an `array<char>`.

## Model

| member | source | states |
|---|---|---|
| CString.Truncate | battery.c:43-52 | what `snprintf`/`strlcpy` leave in a buffer: a prefix of the text, never longer than the room, the whole text when it fits |
| CString.WriteAt | battery.c:43-52 | writing a text behind the C string `buf` with `snprintf`/`strlcpy`: the result is `buf` followed by a prefix of the text, as long as both together or `size - 1`, whichever is less |
| CString.WriteAtTruncated | battery.c:43-52 | writing a second text behind a truncated first one in the same buffer gives the truncation of the concatenation |
| CString.NatTextRoundTrip | battery.c:43-44 | the decimal text of `%d` parses back to the number |
| CString.Pad2RoundTrip | battery.c:43-44 | the two-digit text of `%02d` parses back to the number |
| CString.CStr | mpd.c:135-144 | the C string in a buffer is the prefix before the first NUL, and holds no NUL |
| CString.Put | net.c:88-94 | copying a NUL-terminated text into a buffer at an offset writes exactly those characters and leaves the rest of the buffer as it was |
| CString.CStrOfParts | net.c:88-99 | a buffer holding a first text and then a second text with its NUL reads back as the concatenation of the two |
| Render.PresentEmpty | main.c:603-604 | the non-absent texts of a table are empty exactly when every slot is NULL |
| Render.OutputElements | main.c:576-595 | the cursor loop prints exactly the non-absent slots of `[start, end)` in order, the first bare and each later one behind one separator |
| Render.OutputStatus | main.c:597-624 | the printed line is the rendering of `Layout` at `LEFT_ALIGNED` |
| Render.OutputLeft | main.c:603-610 | the search and the left section print exactly the non-absent slots up to the cut, and the cursor ends after the cut with only absent slots skipped |
| Render.OutputRight | main.c:612-620 | from that cursor, the right section prints exactly the non-absent slots after the cut |
| Render.LayoutText | main.c:597-624 | the line is the left section of slots `0..cut`, then the right section of the slots after the cut, then a newline |
| Render.SectionText | main.c:606-620 | an empty section prints nothing; a non-empty one prints its alignment markup then the joined fields |
| Render.JoinedShape | main.c:576-595 | joining n texts gives those texts in order with n-1 separators, the first text first |
| Render.LayoutFields | main.c:597-624 | the fields of the line are exactly the non-absent slots in enum order |
| Render.LayoutSeparators | main.c:576-595 | separators plus sections equal the number of non-absent slots, i.e. one separator fewer than fields in each printed section |
| Render.AllAbsentLine | main.c:603-623 | an all-NULL table prints just `"\n"` |
| Render.LeftSectionIff | main.c:603-610 | `%{l}` is printed iff some slot at or before the cut is non-absent |
| Render.RightSectionIff | main.c:612-620 | `%{r}` is printed iff some slot after the cut is non-absent |
| Render.LeftHoldsOnlyMpd | main.c:603-620 | with the shipped cut `INFO_MPD`, a present MPD slot is the whole left section, followed by `%{r}` or the newline |
| Render.LegacyOutputStatus | lemonbar-status.c:845-867 | the older cursor loop prints the rendering of `LegacyLayout` |
| Render.LegacyElements | lemonbar-status.c:851-864 | the two loops print every non-absent slot joined by `" \| "` |
| Render.LegacyFirstElement | lemonbar-status.c:851-857 | the first loop prints the first non-absent slot alone and stops right after it, or runs to the end of an all-NULL table |
| Render.LegacyLaterElements | lemonbar-status.c:859-864 | the second loop adds each later non-absent slot behind `" \| "`, so the whole table is joined |
| Render.JoinedStep | lemonbar-status.c:859-864 | after a non-empty join, one more slot adds a separator and its text when present, and nothing when absent |
| Render.LegacyRender | lemonbar-status.c:845-867 | the older line is `NORMAL_COLOR "%{r}"`, the non-absent slots joined by `" \| "`, and a newline |
| Render.LegacyLineFrame | lemonbar-status.c:849-865 | the older line always starts with `%{F#DDDDDD}%{r}` and ends with a newline; an all-NULL table prints exactly that markup and the newline |
| Render.LegacyFields | lemonbar-status.c:851-864 | the older line's fields are the non-absent slots in enum order, with one separator fewer |
| Render.CursorAtShippedCut | main.c:606-613 | the cursor arithmetic as written (`i++` after the left section) agrees with `Layout` at the shipped cut |
| Render.CursorRepeatsAfterWiderCut | main.c:606-613 | at a cut of `INFO_MAIL` the cursor as written prints slot 1 twice where `Layout` prints it once |
| EventLoop.RunBatch | main.c:748-838 | running a batch keeps the table and call counts of the right shape |
| EventLoop.DispatchWf | main.c:754-837 | one dispatch keeps the state well formed |
| EventLoop.DispatchTouchesOneSlot | main.c:754-837 | an event rewrites exactly its target slot with the provider's next answer, and no other slot; an event without a target changes no slot |
| EventLoop.EventRouting | main.c:756-806 | a vnode event on the mailbox refreshes MAIL, on the weather cache WEATHER, and otherwise nothing; each of the five timers refreshes its own slot (clock CLOCK, battery BATTERY, network NETWORK, brightness BRIGHTNESS, audio AUDIO), the five slots are distinct, and other timer ids refresh nothing |
| EventLoop.PipeRouting | main.c:808-827 | a pipe event reads one byte when there is one; `BRIGHTNESS_EVENT` refreshes BRIGHTNESS, `AUDIO_EVENT` refreshes AUDIO, any other byte changes no slot |
| EventLoop.ClockRearm | main.c:771-780 | a clock timer queues `EV_DELETE` then `EV_ADD` for `CLOCK_TIMER` with the new delay; every other event queues nothing |
| EventLoop.MpdOrder | main.c:828-834 | MPD readiness runs `mpd_idle_end`, `mpd_info`, `mpd_idle_start` in that order; nothing else calls them |
| EventLoop.DistinctOneClock | main.c:740-780 | a batch of distinct events holds at most one clock timer |
| EventLoop.BatchExitsIff | main.c:750-752 | a batch ends the program iff one of its events carries `EV_ERROR` |
| EventLoop.BatchQueue | main.c:741-780 | a batch appends two records per clock event to what was queued |
| EventLoop.BatchQueueBound | main.c:741-780 | after the reset `n = 0` a batch of distinct events queues at most 2 records, within `EVENTS` |
| Multiplexer.MainRegistrationsFit | main.c:643-731 | the bootstrap of main.c queues between 3 and `EVENTS` = 10 records, and always the clock, battery and network timers |
| Multiplexer.FileWatchesIff | main.c:648-670 | the mailbox and MPD watches are queued iff their descriptors are valid; the file and socket watches are `EV_ADD \| EV_CLEAR` and none is a timer |
| Multiplexer.RelayWatchesIff | main.c:674-709 | the brightness and audio timers are queued iff their initialisation worked, the pipe iff either did, each with `EV_ADD` |
| Multiplexer.MainWatchesIff | main.c:648-716 | the mail, MPD, brightness and audio records are queued iff their initialisation worked; the pipe is watched iff brightness or audio worked |
| Multiplexer.MainAudioWithoutPipe | main.c:668-716 | when audio works but brightness does not, the pipe watch uses a `pipe_fd[0]` that was never set |
| Multiplexer.LegacyRegistrationsOverflow | lemonbar-status.c:869-958 | with mail, brightness, audio and weather all working, lemonbar-status.c queues 9 records into `kev_in[8]` |
| Multiplexer.LegacyRegistrationsFit | lemonbar-status.c:918-958 | lemonbar-status.c queues at most 9 records, and fits 8 iff not all four optional sources work |
| Multiplexer.MainBoot | main.c:643-731 | the table and queue after the bootstrap are well formed |
| Multiplexer.MainBootQueued | main.c:643-731 | the bootstrap queues exactly the registration list, with the first clock delay |
| Multiplexer.MainBootSlots | main.c:643-731 | each optional slot holds its provider's first answer iff its initialisation worked; clock, battery and network are always filled |
| Multiplexer.SourcesSlots | main.c:648-670 | mail, MPD and weather each get their provider's next answer iff their descriptor is valid; the later slots are untouched |
| Multiplexer.RelaysSlots | main.c:674-709 | brightness and audio each get their provider's next answer iff their initialisation worked; every other slot is untouched |
| Multiplexer.TimersSlots | main.c:713-730 | clock, battery and network always get their provider's next answer, and the clock delay is the clock's; the other slots are untouched |
| Multiplexer.LegacyBootSlots | lemonbar-status.c:889-909 | the older bootstrap fills mail when the mailbox opened, brightness and audio when they initialised, and weather and clock always |
| Multiplexer.StatusLoop.Main | main.c:629-737 | the bootstrap of main.c: the state is `MainBoot`, one line is printed, nothing submitted yet, and the program exits when `kqueue` fails |
| Multiplexer.StatusLoop.Legacy | lemonbar-status.c:872-958 | the bootstrap of lemonbar-status.c: the first line is printed before the queue exists, then the registrations are queued; `kev_in` has the corrected size `EVENTS` = 10, the corrected half of the lemonbar-status.c:869 finding |
| Multiplexer.StatusLoop.LegacyStart | lemonbar-status.c:889-958 | after the bootstrap the state is `LegacyBoot`, exactly one line of the filled table is printed, nothing is submitted, and the program exits iff `kqueue` fails |
| Multiplexer.StatusLoop.LegacyFirstLine | lemonbar-status.c:889-911 | the slots are filled as `LegacyTable` says, then that table is printed, with nothing queued |
| Multiplexer.StatusLoop.LegacyArm | lemonbar-status.c:916-958 | without a queue the program exits; otherwise exactly `LegacyRegistrations` is queued with the clock delay of the first line |
| Multiplexer.StatusLoop.Register | main.c:647-731 | `EV_SET(&kev_in[n++], …)` appends one record and advances `n` |
| Multiplexer.StatusLoop.Init | main.c:648-716 | an initialisation block fills its slot and queues its records only when it worked |
| Multiplexer.StatusLoop.MainInit | main.c:643-731 | the bootstrap blocks of main.c leave the table, call counts, clock delay and queue exactly as `MainBoot` says, printing nothing |
| Multiplexer.StatusLoop.InitSources | main.c:646-670 | the mail, MPD and weather blocks reach `MainSources` of the previous state and queue at most 3 records |
| Multiplexer.StatusLoop.InitRelays | main.c:672-709 | the brightness and audio blocks reach `MainRelays` of the previous state, at most 7 records queued in all |
| Multiplexer.StatusLoop.InitTimers | main.c:711-730 | the clock, battery and network blocks reach `MainTimers` of the previous state |
| Multiplexer.StatusLoop.MpdInit | main.c:657-662 | the MPD block fills the MPD slot, starts idle mode and queues its watch only when `mpd_init` gave a descriptor, as `MpdBoot` says |
| Multiplexer.StatusLoop.ClockInit | main.c:713-716 | the clock block fills the clock slot, records the delay it reports and, in main.c, queues the clock timer with that delay |
| Multiplexer.StatusLoop.Enqueue | main.c:685-688 | a run of `EV_SET(&kev_in[n++], ...)` under one condition appends exactly those records when the condition holds, and nothing otherwise |
| Multiplexer.StatusLoop.Query | main.c:720 | `infos[slot] = provider()` stores the provider's next answer in that slot and counts the call |
| Multiplexer.StatusLoop.ClockQuery | main.c:713 | `infos[INFO_CLOCK] = clock_info(&clock_update)` stores the clock's next answer and sets the delay it reports |
| Multiplexer.StatusLoop.LegacyInit | lemonbar-status.c:889-909 | the initialisation of lemonbar-status.c fills the slots exactly as `LegacyTable` says and queues nothing |
| Multiplexer.StatusLoop.LegacyQueue | lemonbar-status.c:918-958 | the queue becomes exactly `LegacyRegistrations` with the clock delay of the first line |
| Multiplexer.StatusLoop.LegacyQueueRelays | lemonbar-status.c:935-958 | the brightness, audio and weather records are appended, each only when its source works |
| Multiplexer.StatusLoop.Relay | x.c:272-279 | the X relay thread's `write(out, &c, 1)` appends one byte to the pipe and changes nothing else |
| Multiplexer.StatusLoop.HandleEvent | main.c:750-837 | handling one event changes the arrays exactly as `Dispatch` says |
| Multiplexer.StatusLoop.HandleTimer | main.c:767-806 | a timer event changes the arrays exactly as `Dispatch` says, queueing the clock's two records for `CLOCK_TIMER` |
| Multiplexer.StatusLoop.ReadPipeByte | main.c:809-827 | a pipe event consumes one byte and refreshes the slot it names, as `ReadPipe` says |
| Multiplexer.StatusLoop.MpdReady | main.c:828-834 | MPD readiness ends idle mode, refreshes the MPD slot and restarts idle mode, as `MpdRefresh` says |
| Multiplexer.StatusLoop.Print | main.c:597-624 | printing appends the rendered table to the output and changes no state |
| Multiplexer.StatusLoop.Step | main.c:739-840 | one loop turn submits `kev_in[0..n)`, resets `n`, exits on `-1` or `EV_ERROR`, and otherwise ends in `RunBatch`'s state and prints one line; a batch holds at most the `nevents` each program passes to `kevent` (10 in main.c, 8 in lemonbar-status.c) |
| Multiplexer.StatusLoop.RunEvents | main.c:748-838 | the inner `for` loop succeeds iff `RunBatch` does, and reaches its state |
| Multiplexer.RunBatchStep | main.c:748-838 | an event without `EV_ERROR` keeps the state well formed, and the batch from it is its dispatch followed by the rest of the batch |
| Battery.BatteryInfo | battery.c:14-59 | NULL when the device cannot be read; otherwise the text `BatteryText` builds in two steps at offset `n` |
| Battery.BatteryTextStates | battery.c:36-57 | a text exists iff the AC state is OFF or ON, and never exceeds `BATT_INFO_BUFLEN - 1` = 12 characters |
| Battery.BatteryOnPower | battery.c:47-53 | on AC power the text is `"A/C (N%)"` |
| Battery.BatteryUnknownTime | battery.c:38-41 | on battery with an unknown (negative) time the text is `"--:-- (N%)"` |
| Battery.BatteryTimeKept | battery.c:38-53 | on battery the text starts with `H:MM` of the minutes left, and is exactly `H:MM (N%)` when it fits |
| Battery.TimeLeftRoundTrip | battery.c:43-44 | the hours and two-digit minutes read back give the minutes left |
| Battery.TimeLeftLength | battery.c:43-44 | `H:MM` of any 32-bit minute count fits in 11 characters |
| Mail.LaterIsNanosOrder | mail.c:60-68 | `timespec_later` is the order of the instants in nanoseconds |
| Mail.LaterStrictOrder | mail.c:60-68 | `timespec_later` is irreflexive, asymmetric, transitive and total on distinct times |
| Mail.MailInfo | mail.c:38-57 | when a marker is shown it is `MAIL_COLOR "MAIL" NORMAL_COLOR` |
| Mail.MailMarkerIff | mail.c:38-57 | the marker is shown iff the descriptor is valid, `fstat` works and the mailbox was modified after it was read |
| Mail.MailReadClears | mail.c:53-56 | once the mailbox was read after its last change, no marker is shown |
| Mail.MailPath | mail.c:19-30 | the path fits `MAILPATH_BUFLEN` |
| Mail.MailInit | mail.c:16-36 | without a login the result is -1; otherwise the path is `MailPath(login)` and the descriptor is what `open` returns |
| Mail.MailPathShape | mail.c:23-30 | the path is `/var/mail/` then the login, cut to 255 bytes |
| Clock.ClockInfo | clock.c:8-34 | the delay is untouched without a pointer, 10000 when the time cannot be read, `(60 - tm_sec) * 1000` otherwise; the text exists iff the time was read |
| Clock.NextMinuteBounds | clock.c:28-29 | for `tm_sec` in 0..60 the delay lies in 0..60000, adds up with the seconds to a minute, is at least 1000 iff `tm_sec <= 59`, and is whole seconds |
| Clock.StampFits | clock.c:5-31 | the date text of `%a %b %d, %R` is exactly 17 characters, so it fits `CLOCK_BUFLEN` |
| Clock.StampFields | clock.c:31 | the day, hour and minute read back from the date text |
| Weather.Get | weather.c:38-49 | a key is found iff the value is an object holding it |
| Weather.FirstUndescribed | weather.c:58-69 | the index of the first entry without a string description, all before it described |
| Weather.WeatherInfo | weather.c:21-83 | NULL for an unreadable file; otherwise `WeatherText`, the truncated text, without leaving the buffer |
| Weather.WeatherInfoAsWritten | weather.c:21-83 | the cursor loop as written: it leaves the buffer exactly when `Overruns` holds, and otherwise produces `WeatherText` |
| Weather.WriteEntriesAsWritten | weather.c:57-74 | the entry loop as written overruns exactly when `OverrunsText` holds |
| Weather.WriteEntries | weather.c:57-74 | the entry loop with the cursor kept inside the buffer gives `EntriesText`: NULL at the first undescribed entry, otherwise every description behind `", "`, truncated |
| Weather.AppendStep | weather.c:70-73 | one more description written behind a truncated text is the truncation of the text with that description appended |
| Weather.AsWrittenStep | weather.c:70-73 | a step of the loop as written that stays inside the buffer keeps the loop's invariant |
| Weather.AsWrittenOverruns | weather.c:70-73 | a step of the loop as written whose cursor passes the buffer end means `OverrunsText` holds |
| Weather.AsWrittenStops | weather.c:60-69 | an undescribed entry reached by the loop as written means no overrun and a NULL result |
| Weather.AsWrittenEnds | weather.c:74-76 | the loop as written ending inside the buffer means no overrun and the result is the text written |
| Weather.WeatherTemperatureOnly | weather.c:46-76 | an empty `weather` array gives the temperature text alone |
| Weather.WeatherBadEntry | weather.c:58-69 | an entry that is not an object with a string description makes the result NULL |
| Weather.WeatherTextShape | weather.c:46-76 | a result lists every description in order behind the temperature, truncated to the buffer, and starts with the temperature text |
| Weather.OverrunExample | weather.c:70-73 | a 41-character description followed by a second entry drives the cursor past the buffer |
| Audio.VolumePercent | audio.c:159-170 | a gain between the limits prints as one or two digits, the value `vol*100/255` below 100 |
| Audio.VolumeMonotone | audio.c:166-169 | a higher gain never prints a lower percentage |
| Audio.VolumeHasNoColon | audio.c:159-170 | every volume text has 1 or 2 characters and no `:` |
| Audio.AudioMuted | audio.c:109-148 | when muted the text is `"_:_"`, whatever the levels |
| Audio.AudioChannels | audio.c:125-148 | unmuted, the text is the left volume, `:`, the right volume, and fits `AUDIO_BUFLEN` |
| Audio.First | audio.c:41-66 | the first index of a device with the given label and type, or -1 when there is none |
| Audio.FindDevice | audio.c:41-50 | the ioctl loop finds `First` |
| Audio.FirstIsLeast | audio.c:41-66 | any index that is a match with no match before it is `First` |
| Audio.MuteWalk | audio.c:73-83 | a mute device found along the `next` chain is an ENUM labelled `mute` |
| Audio.MuteWalkFirst | audio.c:73-83 | a `Found` index is the first mute ENUM reached by following `next` from the start, every device before it on the chain existing and not a mute; `Ended` means the chain left the device list before any mute; `Cycles` means the whole fuel was spent on existing non-mute devices |
| Audio.FollowChain | audio.c:73-83 | the chain loop ends where `MuteWalk` does |
| Audio.ForwardChainEnds | audio.c:73-83 | when every `next` points forward, the walk never cycles |
| Audio.Mixer.Init | audio.c:21-97 | a second call terminates; otherwise the statics are -1 on each failure, master is `First` of `master`/VALUE once the class exists, and mute is found along the chain, with success iff all three were found |
| Audio.AudioInfo | audio.c:99-157 | the text is `AudioText` of the mute switch and the levels the device reports |
| Mpd.FindFrom | mpd.c:24-32 | the first occurrence of the tag at or after a position |
| Mpd.Find | mpd.c:24-32 | the first occurrence of the tag, or none anywhere |
| Mpd.FindTag | mpd.c:24-32 | `find_tag` is the position just past the first occurrence, or NULL when there is none |
| Mpd.Strchr | mpd.c:34-39 | the index of the first occurrence of the character, or none |
| Mpd.TaggedLine | mpd.c:137-141 | a tag is missing, found without a `'\n'` behind it, or found with the value running up to the first `'\n'` |
| Mpd.TerminateStr | mpd.c:34-39 | the first `'\n'` behind the position becomes NUL and nothing else changes; without one the call fails |
| Mpd.Cut | mpd.c:135-144 | cutting the buffer in place gives `SongText` of its C string |
| Mpd.CutTexts | mpd.c:137-141 | both `find_tag`/`terminate_str` pairs succeed iff neither tagged line runs to the end of the buffer without a newline, and then the texts are the name and the title |
| Mpd.TitleEndsBeforeName | mpd.c:137-141 | a Title line found before the cut left by the Name step ends before the Name value starts |
| Mpd.ReceiveResponse | mpd.c:120-135 | after `recv` into `buf + 1` and the NUL at `numbytes + 1`, the C string in the buffer is `'\n'` followed by the C string of the data |
| Mpd.Receive | mpd.c:120-129 | `recv` into `buf + 1` writes the data from index 1 on and keeps `buf[0]` and every cell after the data |
| Mpd.CutLine | mpd.c:137-141 | one `find_tag` and `terminate_str` step: the buffer is cut at the end of the tagged line and the value reads back from the position |
| Mpd.MpdInfo | mpd.c:112-149 | a failing recv exits; otherwise `currentsong` is sent, the second response behind `'\n'` becomes `SongText`, and `idle player` is sent unless the cut faulted |
| Mpd.TitleBeforeName | mpd.c:137-141 | a Title line found before the Name cut lies entirely before the Name tag |
| Mpd.TitleAfterNameHidden | mpd.c:137-141 | a Title that only follows the Name line is not found, giving `UNKNOWN TITLE` |
| Mpd.TitleBeforeNameFound | mpd.c:137-144 | a Title before the Name line is found, giving `"<name>: <title>\n"` truncated to `MPD_INFOLEN` |
| Mpd.CStrCut | mpd.c:34-39 | writing NUL inside a C string cuts it there |
| Mpd.Recv | mpd.c:122 | `recv` delivers a prefix of what is waiting, at most the length asked for |
| Mpd.MpdInitAsWritten | mpd.c:51-110 | as written, a greeting longer than 63 bytes is written past `buf[64]`; otherwise a greeting is accepted iff it is longer than 7 bytes and starts with `OK MPD `, and then `idle player` is sent |
| Mpd.MpdInit | mpd.c:51-110 | receiving at most 63 bytes never overflows; connected iff the greeting is accepted, and then `idle player` is sent |
| Mpd.GreetingOverflowExample | mpd.c:55-100 | a valid 64-byte greeting overflows the buffer as written |
| Net.ActivePort | net.c:53-57 | the first port with `TRUNK_PORT_ACTIVE`, or none |
| Net.FirstActive | net.c:53-62 | the port loop finds `ActivePort` |
| Net.PortName | net.c:90 | the port name measured by `strnlen` has at most `IFNAMSIZ` characters and no NUL |
| Net.NetInfo | net.c:17-104 | the field is `NetText` under the chosen protocol test: the bit test `ra_proto & TRUNK_PROTO_FAILOVER` as written, or the exact `==` of the Findings row; a result means the trunk passed that test, and under the exact test that it is a failover trunk |
| Net.NetTextIff | net.c:32-99 | for either protocol test, the field is shown iff the socket opens, the trunk passes the test and has an active port, and the address is IPv4 or IPv6; it is then the port name, a space and the address |
| Net.LoadBalancePasses | net.c:48 | the test as written, `ra_proto & TRUNK_PROTO_FAILOVER`, accepts load balancing, which is not failover |
| Net.FailoverTestAgrees | net.c:48 | among the trunk protocols, the test as written accepts exactly failover and load balancing |
| Net.LoadBalanceShown | net.c:48-99 | as written, a load-balancing trunk with an active port and an IPv4 address shows `"<port> <address>"`; with the exact test it shows nothing |
| Net.WriteLine | net.c:88-99 | `strlcpy` of the port name, the space at `strnlen(rp_portname, IFNAMSIZ)`, and `inet_ntop` behind it: NULL iff the address text and its NUL do not fit the room left, otherwise the port name, a space and the address |
| X.OutputNameMatch | x.c:151-153 | an output name matches iff it is a prefix of `eDP1` of at most 4 characters |
| X.StrncmpIsPrefix | x.c:151-153 | `strncmp(a, b, len(b)) == 0` on NUL-free texts says `b` is a prefix of `a` |
| X.SelectScreen | x.c:120-128 | the screen chosen is the root of the default screen, or none when it is out of range |
| X.OutputSearch | x.c:143-165 | the first output whose name matches, every output before it skipped; or the output whose name could not be read; or none |
| X.FindOutput | x.c:143-165 | the output loop finds `OutputSearch` |
| X.InitOkIff | x.c:53-212 | initialisation succeeds iff every step works, the output is found and the property is a range with two values; then the statics hold the event base, atom, root, output and `limits[1] - limits[0]` |
| X.OutputKeptOnLateFailure | x.c:165-183 | a failure after the output was found, whether the property query fails or the reply is not a range of exactly two values, makes `x_init` fail, keeps `output_out` set and leaves `range_out` unchanged |
| X.Backlight.Init | x.c:53-212 | a second call terminates and changes nothing; otherwise the result and the statics are `InitSpec` |
| X.Backlight.Info | x.c:215-249 | the brightness field is `BrightnessText` of the reply and the stored range |
| X.BrightnessPercent | x.c:241 | the field is `cur * 100 / range_out` followed by `%`, at most 100 for a current value within the range |
| X.BrightnessNotOffset | x.c:183-241 | the percentage is not offset by the minimum: limits 10..110 and value 10 show `10%` |
| X.BrightnessNeedsInteger | x.c:232-237 | a reply that is not a single 32-bit INTEGER gives NULL |
| X.EventByte | x.c:272-281 | an output-change event writes `BRIGHTNESS_EVENT`, a key release `AUDIO_EVENT`, anything else nothing |
| X.XEventLoop | x.c:251-282 | the bytes written are `Written` of the events |
| X.WrittenBytes | x.c:272-281 | at most one byte per event, each `BRIGHTNESS_EVENT` or `AUDIO_EVENT` |
| X.WrittenAppend | x.c:272-281 | the bytes written for two runs of events are the bytes of each, in order |

## Left out

- I/O and foreign calls become inputs: `open`, `ioctl` (APM, mixer, trunk), sockets, `getaddrinfo`, `recv`/`send`, `fstat`, `getlogin`, xcb replies and json-c parsing. So do their results: the APM power report, the mixer device list, the trunk ports, the address, the X display and the parsed JSON document.
- `inet_ntop`'s text is an input. Only its length check against the room left in the buffer is modelled.
- Clock.Stamp: renders `%a %b %d, %R` in the C locale; other locales are not modelled. `time`/`localtime_r` become the `Now` input.
- Audio.VolumePercent: the floating division `vol / ((MAX - MIN) / 100.0)` is modelled as the integer `vol * 100 / 255`. For gains 0..254 the two truncate to the same value, because a non-integer quotient lies at least 1/255 from the next integer.
- Weather.Number: a `main.temp` that is a JSON string counts as 0. json-c converts such a string with `strtod`, so `{"main":{"temp":"21"},"weather":[]}` prints `21 °C` in C. The string-to-number conversion is not modelled.
- Weather.TempText: the `%.0f` rounding of the temperature is not modelled; the rounded temperature is an input.
- colors.h is not part of this model. The colours of `main.c` are a `Palette` parameter; `lemonbar-status.c` defines its own colours, and those are constants here.
- `MPD_INFOLEN` is not part of this model and is a parameter. `mpd_idle_start`/`mpd_idle_end` are only recorded as calls, in order.
- Mpd.MpdInfo: each `recv` delivers a whole response; responses split over several reads are not modelled.
- The kernel queue, the X relay thread and the pipe transport are abstracted. Events arrive as batches, and the relay's bytes are appended to the pipe between batches (`Relay`). Concurrency is not modelled.
- `output_status` writes to stdout; the model collects the printed lines instead of flushing them.
- X.BrightnessPercent: `cur * 100` and `limits[1] - limits[0]` are unbounded integers. 32-bit overflow is not modelled; it needs limits beyond 21 million.
- Battery.TimeLeftLength: assumes `minutes_left` fits a 32-bit `int`, as the struct field does.
- Audio.Mixer.Init: a `next` chain that loops is cut after as many steps as there are devices and reported as `Hangs`. It does not model the C loop running forever or until `ioctl` fails.
- The `pthread_create` and `pipe()` failure warnings are not modelled beyond the unset `pipe_fd[0]` (`MainAudioWithoutPipe`).
- Audio.Mixer.Init and X.Backlight.Init model `audio_init` of audio.c and `x_init` of x.c, with their `initialized` guards and statics. The copies in main.c and lemonbar-status.c, each called once, compute the same device indexes, output, atom and range, but return them through out-pointers, and their `brightness_init` does not create the relay thread. The out-pointer versions are not modelled separately.
- The `get_in_addr` helper and the `main` test driver in `mpd.c` are not modelled. Neither is used by the status program.

## Findings

| source | as written | input that shows it | evidently intended | confidence | as-written member | corrected member |
|---|---|---|---|---|---|---|
| lemonbar-status.c:869,918-958 | `kev_in[EVENTS]` with `EVENTS` 8, but up to 9 records are queued with `kev_in[n++]` | mailbox, X brightness, mixer and weather cache all available | room for every bootstrap record (main.c raises `EVENTS` to 10) | not executed | Multiplexer.LegacyRegistrationsOverflow | Multiplexer.StatusLoop.Legacy |
| main.c:606-613 | after the left section the cursor resumes at `i + 1`, where `i` is the first non-absent slot, not at `LEFT_ALIGNED + 1` | `LEFT_ALIGNED` set to `INFO_MAIL` with MPD and MAIL present: MAIL is printed on both sides (latent at the shipped `INFO_MPD`) | the right section starts after the cut | not executed | Render.CursorRepeatsAfterWiderCut | Render.LayoutFields |
| weather.c:70-73 | the cursor advances by `snprintf`'s untruncated return value, and `buflen -= n` goes negative | a 41-character first description followed by a second entry | stop writing once the 48-byte buffer is full | not executed | Weather.OverrunExample | Weather.WeatherInfo |
| mpd.c:55,95,100 | `recv(..., MAXDATASIZE - 1)` into `char buf[64]`, then `buf[numbytes] = '\0'` | a 64-byte greeting `"OK MPD "` followed by 57 digits | receive at most `sizeof buf - 1` bytes | not executed | Mpd.GreetingOverflowExample | Mpd.MpdInit |
| net.c:48 | `ra_proto & TRUNK_PROTO_FAILOVER` tests a bit of an enumerated protocol number | a load-balancing trunk (`TRUNK_PROTO_LOADBALANCE` = 3) passes | `ra_proto == TRUNK_PROTO_FAILOVER`, as the warning says | not executed | Net.LoadBalanceShown | Net.NetInfo |
