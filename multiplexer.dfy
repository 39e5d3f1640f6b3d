/**
 * `main` of main.c and of lemonbar-status.c: the bootstrap that fills the slot
 * table and queues the first change records, and the `for (;;)` loop that waits
 * for a batch of events, dispatches each one and prints one status line.
 *
 * The slot table `infos[]` and the change records `kev_in[]` are arrays updated
 * in place, as in the C code; every method is proved against the state machine
 * of module EventLoop.
 */
module Multiplexer {
  import opened CString
  import opened Render
  import opened EventLoop

  /**
   * What the initialisation calls report: the mailbox, MPD and weather
   * descriptors (negative on failure), whether the X and mixer set-up worked,
   * the read end of the notification pipe (`None` when `pipe()` failed or was
   * never called), and whether `kqueue()` worked.
   */
  datatype Setup = Setup(
    mailFd: int, mpdFd: int, weatherFd: int,
    brightnessOk: bool, pipe: Option<nat>, audioOk: bool, kqueueOk: bool)

  // ---------------------------------------------------------------------
  // The change records queued by the bootstrap

  function MailWatch(fd: int): Change { Change(Id(fd), Vnode, AddClear, 0) }
  function WeatherWatch(fd: int): Change { Change(Id(fd), Vnode, AddClear, 0) }
  function MpdWatch(fd: int): Change { Change(Id(fd), Read, AddClear, 0) }
  function PipeWatch(pipe: Ident): Change { Change(pipe, Read, Add, 0) }
  function TimerAdd(id: nat, period: int): Change { Change(Id(id), Timer, Add, period) }

  /** main.c creates the pipe only when the X set-up worked; otherwise `pipe_fd[0]` is never set. */
  function MainPipe(setup: Setup): Ident {
    if setup.brightnessOk && setup.pipe.Some? then Id(setup.pipe.value) else Unset
  }

  /** lemonbar-status.c always calls `pipe()`. */
  function LegacyPipe(setup: Setup): Ident {
    if setup.pipe.Some? then Id(setup.pipe.value) else Unset
  }

  /** The records main.c queues, in order, before its first `kevent` call. */
  function MainRegistrations(setup: Setup, clockDelay: int): seq<Change> {
    FileWatches(setup) + RelayWatches(setup) + AlwaysTimers(clockDelay)
  }

  /** The watches of the mailbox, the MPD socket and the weather file, when each opened. */
  function FileWatches(setup: Setup): seq<Change> {
    (if setup.mailFd >= 0 then [MailWatch(setup.mailFd)] else [])
    + (if setup.mpdFd >= 0 then [MpdWatch(setup.mpdFd)] else [])
    + (if setup.weatherFd >= 0 then [WeatherWatch(setup.weatherFd)] else [])
  }

  /** The records of the two X-relayed providers, when each initialised. */
  function RelayWatches(setup: Setup): seq<Change> {
    (if setup.brightnessOk then [TimerAdd(BRIGHTNESS_TIMER, BRIGHTNESS_INTERVAL), PipeWatch(MainPipe(setup))] else [])
    + (if setup.audioOk then [TimerAdd(AUDIO_TIMER, AUDIO_INTERVAL), PipeWatch(MainPipe(setup))] else [])
  }

  /** The clock, battery and network timers, armed in every run. */
  function AlwaysTimers(clockDelay: int): seq<Change> {
    [TimerAdd(CLOCK_TIMER, clockDelay), TimerAdd(BATTERY_TIMER, BATTERY_INTERVAL), TimerAdd(NET_TIMER, NET_INTERVAL)]
  }

  /** The records lemonbar-status.c queues, in order, before its first `kevent` call. */
  function LegacyRegistrations(setup: Setup, clockDelay: int): seq<Change> {
    [TimerAdd(CLOCK_TIMER, clockDelay), TimerAdd(BATTERY_TIMER, BATTERY_INTERVAL), TimerAdd(NET_TIMER, NET_INTERVAL)]
    + (if setup.mailFd >= 0 then [MailWatch(setup.mailFd)] else [])
    + (if setup.brightnessOk then [TimerAdd(BRIGHTNESS_TIMER, BRIGHTNESS_INTERVAL), PipeWatch(LegacyPipe(setup))] else [])
    + (if setup.audioOk then [TimerAdd(AUDIO_TIMER, AUDIO_INTERVAL), PipeWatch(LegacyPipe(setup))] else [])
    + (if setup.weatherFd >= 0 then [WeatherWatch(setup.weatherFd)] else [])
  }

  function Registrations(v: Variant, setup: Setup, clockDelay: int): seq<Change> {
    if v == Current then MainRegistrations(setup, clockDelay) else LegacyRegistrations(setup, clockDelay)
  }

  /** main.c never queues more than `EVENTS` records; the clock, battery and network timers always. */
  lemma MainRegistrationsFit(setup: Setup, clockDelay: int)
    ensures 3 <= |MainRegistrations(setup, clockDelay)| <= EVENTS
    ensures TimerAdd(CLOCK_TIMER, clockDelay) in MainRegistrations(setup, clockDelay)
    ensures TimerAdd(BATTERY_TIMER, BATTERY_INTERVAL) in MainRegistrations(setup, clockDelay)
    ensures TimerAdd(NET_TIMER, NET_INTERVAL) in MainRegistrations(setup, clockDelay)
  {
    var r := MainRegistrations(setup, clockDelay);
    assert r[|r| - 3] == TimerAdd(CLOCK_TIMER, clockDelay);
    assert r[|r| - 2] == TimerAdd(BATTERY_TIMER, BATTERY_INTERVAL);
    assert r[|r| - 1] == TimerAdd(NET_TIMER, NET_INTERVAL);
  }

  /** main.c watches a source exactly when its initialisation worked. */
  lemma MainWatchesIff(setup: Setup, clockDelay: int)
    ensures MailWatch(setup.mailFd) in MainRegistrations(setup, clockDelay) <==> setup.mailFd >= 0
    ensures MpdWatch(setup.mpdFd) in MainRegistrations(setup, clockDelay) <==> setup.mpdFd >= 0
    ensures TimerAdd(BRIGHTNESS_TIMER, BRIGHTNESS_INTERVAL) in MainRegistrations(setup, clockDelay) <==> setup.brightnessOk
    ensures TimerAdd(AUDIO_TIMER, AUDIO_INTERVAL) in MainRegistrations(setup, clockDelay) <==> setup.audioOk
    ensures PipeWatch(MainPipe(setup)) in MainRegistrations(setup, clockDelay) <==> setup.brightnessOk || setup.audioOk
  {
    FileWatchesIff(setup);
    RelayWatchesIff(setup);
    assert forall x :: x in AlwaysTimers(clockDelay) ==> x.flags == Add && x.filter == Timer && x.ident.value < BRIGHTNESS_TIMER;
  }

  lemma FileWatchesIff(setup: Setup)
    ensures MailWatch(setup.mailFd) in FileWatches(setup) <==> setup.mailFd >= 0
    ensures MpdWatch(setup.mpdFd) in FileWatches(setup) <==> setup.mpdFd >= 0
    ensures forall x :: x in FileWatches(setup) ==> x.flags == AddClear && x.filter != Timer
  {
  }

  lemma RelayWatchesIff(setup: Setup)
    ensures TimerAdd(BRIGHTNESS_TIMER, BRIGHTNESS_INTERVAL) in RelayWatches(setup) <==> setup.brightnessOk
    ensures TimerAdd(AUDIO_TIMER, AUDIO_INTERVAL) in RelayWatches(setup) <==> setup.audioOk
    ensures PipeWatch(MainPipe(setup)) in RelayWatches(setup) <==> setup.brightnessOk || setup.audioOk
    ensures forall x :: x in RelayWatches(setup) ==> x.flags == Add
  {
  }

  /** With the mixer but without the X set-up, main.c watches a `pipe_fd[0]` it never set. */
  lemma MainAudioWithoutPipe(setup: Setup, clockDelay: int)
    requires setup.audioOk && !setup.brightnessOk
    ensures PipeWatch(Unset) in MainRegistrations(setup, clockDelay)
  {
    MainWatchesIff(setup, clockDelay);
  }

  /**
   * lemonbar-status.c as written: when every source initialises it queues nine
   * records into `kev_in[EVENTS]` of eight.
   */
  lemma LegacyRegistrationsOverflow(setup: Setup, clockDelay: int)
    requires setup.mailFd >= 0 && setup.brightnessOk && setup.audioOk && setup.weatherFd >= 0
    ensures |LegacyRegistrations(setup, clockDelay)| == 9 > LEGACY_EVENTS
  {
  }

  /** With room for `EVENTS` records every legacy bootstrap fits, and at most nine are queued. */
  lemma LegacyRegistrationsFit(setup: Setup, clockDelay: int)
    ensures 3 <= |LegacyRegistrations(setup, clockDelay)| <= 9 <= EVENTS
    ensures |LegacyRegistrations(setup, clockDelay)| <= LEGACY_EVENTS <==>
      !(setup.mailFd >= 0 && setup.brightnessOk && setup.audioOk && setup.weatherFd >= 0)
  {
  }

  // ---------------------------------------------------------------------
  // The slot table after the bootstrap

  function When(ok: bool, w: World, st: Sys, slot: nat): (r: Sys)
    requires slot < |st.infos| && |st.calls| == |st.infos|
    ensures |r.infos| == |st.infos| && |r.calls| == |st.calls|
  {
    if ok then Refresh(w, st, slot) else st
  }

  /** One bootstrap block: when `ok`, the provider fills its slot and its records are queued. */
  function Provide(ok: bool, w: World, st: Sys, slot: nat, regs: seq<Change>): (r: Sys)
    requires slot < |st.infos| && |st.calls| == |st.infos|
    ensures |r.infos| == |st.infos| && |r.calls| == |st.calls|
  {
    if ok then Refresh(w, st, slot).(queued := st.queued + regs) else st
  }

  /** The MPD block of main.c: fetch the song, start idling, watch the socket. */
  function MpdBoot(fd: int, w: World, st: Sys): (r: Sys)
    requires Wf(Current, st)
    ensures Wf(Current, r)
  {
    if fd >= 0 then
      Refresh(w, st, INFO_MPD).(mpdTrace := st.mpdTrace + [Info, IdleStart], queued := st.queued + [MpdWatch(fd)])
    else st
  }

  /** The clock block: fill the slot, keep the delay, arm the clock timer with it. */
  function ClockBoot(w: World, st: Sys, slot: nat, queue: bool): (r: Sys)
    requires slot < |st.infos| && |st.calls| == |st.infos|
    ensures |r.infos| == |st.infos| && |r.calls| == |st.calls|
  {
    var delay := w.clockDelay(st.calls[slot]);
    Refresh(w, st, slot).(clockUpdate := delay,
                          queued := st.queued + (if queue then [TimerAdd(CLOCK_TIMER, delay)] else []))
  }

  function EmptySys(size: nat): (r: Sys)
    ensures |r.infos| == size && |r.calls| == size
  {
    Sys(seq(size, _ => None), seq(size, _ => 0), 0, None, [], [], [])
  }

  /** The first blocks of main.c: the mailbox, MPD and the weather file. */
  function MainSources(setup: Setup, w: World, s0: Sys): (r: Sys)
    requires Wf(Current, s0)
    ensures Wf(Current, r)
  {
    var s1 := Provide(setup.mailFd >= 0, w, s0, INFO_MAIL, [MailWatch(setup.mailFd)]);
    var s2 := MpdBoot(setup.mpdFd, w, s1);
    Provide(setup.weatherFd >= 0, w, s2, INFO_WEATHER, [WeatherWatch(setup.weatherFd)])
  }

  /** The blocks of main.c fed by the X relay: brightness and audio, both watching the pipe. */
  function MainRelays(setup: Setup, w: World, s3: Sys): (r: Sys)
    requires Wf(Current, s3)
    ensures Wf(Current, r)
  {
    var s4 := Provide(setup.brightnessOk, w, s3, INFO_BRIGHTNESS,
                      [TimerAdd(BRIGHTNESS_TIMER, BRIGHTNESS_INTERVAL), PipeWatch(MainPipe(setup))]);
    Provide(setup.audioOk, w, s4, INFO_AUDIO, [TimerAdd(AUDIO_TIMER, AUDIO_INTERVAL), PipeWatch(MainPipe(setup))])
  }

  /** The last blocks of main.c: the clock, battery and network, always filled and always timed. */
  function MainTimers(w: World, s5: Sys): (r: Sys)
    requires Wf(Current, s5)
    ensures Wf(Current, r)
  {
    var s6 := ClockBoot(w, s5, INFO_CLOCK, true);
    var s7 := Provide(true, w, s6, INFO_BATTERY, [TimerAdd(BATTERY_TIMER, BATTERY_INTERVAL)]);
    Provide(true, w, s7, INFO_NETWORK, [TimerAdd(NET_TIMER, NET_INTERVAL)])
  }

  /** main.c: each provider whose initialisation worked fills its slot and is watched, in source order. */
  function MainBoot(setup: Setup, w: World): (r: Sys)
    ensures Wf(Current, r)
  {
    MainTimers(w, MainRelays(setup, w, MainSources(setup, w, EmptySys(INFO_ARRAY_SIZE))))
  }

  /** The mail slot of lemonbar-status.c: `mail_info()` of a descriptor that did not open is NULL. */
  function LegacyMailBoot(fd: int, w: World, st: Sys): (r: Sys)
    requires Wf(Legacy, st)
    ensures Wf(Legacy, r)
  {
    var s := Refresh(w, st, LEGACY_MAIL);
    if fd >= 0 then s else s.(infos := s.infos[LEGACY_MAIL := None])
  }

  /**
   * lemonbar-status.c: mail, clock, battery, network, brightness when X worked,
   * weather always, audio when the mixer worked.
   */
  function LegacyTable(setup: Setup, w: World): (r: Sys)
    ensures Wf(Legacy, r)
  {
    var s0 := EmptySys(LEGACY_INFO_ARRAY_SIZE);
    var s1 := LegacyMailBoot(setup.mailFd, w, s0);
    var s2 := ClockBoot(w, s1, LEGACY_CLOCK, false);
    var s3 := When(true, w, s2, LEGACY_BATTERY);
    var s4 := When(true, w, s3, LEGACY_NETWORK);
    var s5 := When(setup.brightnessOk, w, s4, LEGACY_BRIGHTNESS);
    var s6 := When(true, w, s5, LEGACY_WEATHER);
    When(setup.audioOk, w, s6, LEGACY_AUDIO)
  }

  lemma LegacyTableQueuesNothing(setup: Setup, w: World)
    ensures LegacyTable(setup, w).queued == []
  {
    var s0 := EmptySys(LEGACY_INFO_ARRAY_SIZE);
    var s1 := LegacyMailBoot(setup.mailFd, w, s0);
    assert s1.queued == [];
    assert ClockBoot(w, s1, LEGACY_CLOCK, false).queued == [];
  }

  /** The records come after the first line, and only once the queue exists. */
  function LegacyBoot(setup: Setup, w: World): (r: Sys)
    ensures Wf(Legacy, r)
  {
    var t := LegacyTable(setup, w);
    t.(queued := if setup.kqueueOk then LegacyRegistrations(setup, t.clockUpdate) else [])
  }

  /** The bootstrap of main.c queues exactly its registration list. */
  lemma MainBootQueued(setup: Setup, w: World)
    ensures MainBoot(setup, w).queued == MainRegistrations(setup, w.clockDelay(0))
    ensures MainBoot(setup, w).clockUpdate == w.clockDelay(0)
  {
    var s0 := EmptySys(INFO_ARRAY_SIZE);
    SourcesQueue(setup, w, s0);
    var s3 := MainSources(setup, w, s0);
    assert s3.queued == FileWatches(setup) by { assert [] + FileWatches(setup) == FileWatches(setup); }
    RelaysQueue(setup, w, s3);
    var s5 := MainRelays(setup, w, s3);
    TimersQueue(w, s5);
    assert MainBoot(setup, w) == MainTimers(w, s5);
  }

  lemma SourcesQueue(setup: Setup, w: World, s0: Sys)
    requires Wf(Current, s0)
    ensures var r := MainSources(setup, w, s0);
      r.queued == s0.queued + FileWatches(setup) && r.calls[INFO_CLOCK] == s0.calls[INFO_CLOCK]
  {
  }

  lemma RelaysQueue(setup: Setup, w: World, s3: Sys)
    requires Wf(Current, s3)
    ensures var r := MainRelays(setup, w, s3);
      r.queued == s3.queued + RelayWatches(setup) && r.calls[INFO_CLOCK] == s3.calls[INFO_CLOCK]
  {
  }

  lemma TimersQueue(w: World, s5: Sys)
    requires Wf(Current, s5)
    ensures var r := MainTimers(w, s5); var d := w.clockDelay(s5.calls[INFO_CLOCK]);
      r.queued == s5.queued + AlwaysTimers(d)
      && r.clockUpdate == d
  {
  }

  /** The first blocks fill the mail, MPD and weather slots and leave the others alone. */
  lemma SourcesSlots(setup: Setup, w: World, s0: Sys)
    requires Wf(Current, s0)
    ensures var r := MainSources(setup, w, s0);
      r.infos[INFO_MAIL] == (if setup.mailFd >= 0 then w.sample(INFO_MAIL, s0.calls[INFO_MAIL]) else s0.infos[INFO_MAIL])
      && r.infos[INFO_MPD] == (if setup.mpdFd >= 0 then w.sample(INFO_MPD, s0.calls[INFO_MPD]) else s0.infos[INFO_MPD])
      && r.infos[INFO_WEATHER]
        == (if setup.weatherFd >= 0 then w.sample(INFO_WEATHER, s0.calls[INFO_WEATHER]) else s0.infos[INFO_WEATHER])
      && forall k :: INFO_NETWORK <= k <= INFO_AUDIO || k == INFO_CLOCK ==> r.infos[k] == s0.infos[k] && r.calls[k] == s0.calls[k]
  {
  }

  /** The relayed blocks fill the brightness and audio slots and leave the timed ones alone. */
  lemma RelaysSlots(setup: Setup, w: World, s3: Sys)
    requires Wf(Current, s3)
    ensures var r := MainRelays(setup, w, s3);
      r.infos[INFO_BRIGHTNESS]
        == (if setup.brightnessOk then w.sample(INFO_BRIGHTNESS, s3.calls[INFO_BRIGHTNESS]) else s3.infos[INFO_BRIGHTNESS])
      && r.infos[INFO_AUDIO] == (if setup.audioOk then w.sample(INFO_AUDIO, s3.calls[INFO_AUDIO]) else s3.infos[INFO_AUDIO])
      && (forall k :: 0 <= k < INFO_BRIGHTNESS || INFO_AUDIO < k < INFO_ARRAY_SIZE ==> r.infos[k] == s3.infos[k] && r.calls[k] == s3.calls[k])
  {
  }

  /** The last blocks fill the clock, battery and network slots and leave the others alone. */
  lemma TimersSlots(w: World, s5: Sys)
    requires Wf(Current, s5)
    ensures var r := MainTimers(w, s5);
      r.infos[INFO_CLOCK] == w.sample(INFO_CLOCK, s5.calls[INFO_CLOCK])
      && r.infos[INFO_BATTERY] == w.sample(INFO_BATTERY, s5.calls[INFO_BATTERY])
      && r.infos[INFO_NETWORK] == w.sample(INFO_NETWORK, s5.calls[INFO_NETWORK])
      && r.clockUpdate == w.clockDelay(s5.calls[INFO_CLOCK])
      && (forall k :: k == INFO_MPD || k == INFO_MAIL || INFO_BRIGHTNESS <= k <= INFO_WEATHER ==> r.infos[k] == s5.infos[k])
  {
  }

  lemma LegacyBootClock(setup: Setup, w: World)
    ensures LegacyBoot(setup, w).clockUpdate == w.clockDelay(0)
  {
  }

  function Boot(v: Variant, setup: Setup, w: World): (r: Sys)
    ensures Wf(v, r)
  {
    if v == Current then MainBoot(setup, w) else LegacyBoot(setup, w)
  }

  /** In main.c a slot starts filled exactly when its provider initialised; clock, battery and network always. */
  lemma MainBootSlots(setup: Setup, w: World)
    ensures var t := MainBoot(setup, w).infos;
      t[INFO_MAIL] == (if setup.mailFd >= 0 then w.sample(INFO_MAIL, 0) else None)
      && t[INFO_MPD] == (if setup.mpdFd >= 0 then w.sample(INFO_MPD, 0) else None)
      && t[INFO_WEATHER] == (if setup.weatherFd >= 0 then w.sample(INFO_WEATHER, 0) else None)
      && t[INFO_BRIGHTNESS] == (if setup.brightnessOk then w.sample(INFO_BRIGHTNESS, 0) else None)
      && t[INFO_AUDIO] == (if setup.audioOk then w.sample(INFO_AUDIO, 0) else None)
      && t[INFO_CLOCK] == w.sample(INFO_CLOCK, 0)
      && t[INFO_BATTERY] == w.sample(INFO_BATTERY, 0)
      && t[INFO_NETWORK] == w.sample(INFO_NETWORK, 0)
    ensures MainBoot(setup, w).clockUpdate == w.clockDelay(0)
  {
    var s0 := EmptySys(INFO_ARRAY_SIZE);
    SourcesSlots(setup, w, s0);
    var s3 := MainSources(setup, w, s0);
    RelaysSlots(setup, w, s3);
    var s5 := MainRelays(setup, w, s3);
    TimersSlots(w, s5);
    assert MainBoot(setup, w) == MainTimers(w, s5);
  }

  /** In lemonbar-status.c the weather slot is read even when its file did not open. */
  lemma LegacyBootSlots(setup: Setup, w: World)
    ensures var t := LegacyBoot(setup, w).infos;
      t[LEGACY_MAIL] == (if setup.mailFd >= 0 then w.sample(LEGACY_MAIL, 0) else None)
      && t[LEGACY_WEATHER] == w.sample(LEGACY_WEATHER, 0)
      && t[LEGACY_BRIGHTNESS] == (if setup.brightnessOk then w.sample(LEGACY_BRIGHTNESS, 0) else None)
      && t[LEGACY_AUDIO] == (if setup.audioOk then w.sample(LEGACY_AUDIO, 0) else None)
      && t[LEGACY_CLOCK] == w.sample(LEGACY_CLOCK, 0)
  {
  }

  function ConfigOf(v: Variant, setup: Setup): Config {
    Config(v, setup.mailFd, setup.weatherFd, if v == Current then setup.mpdFd else -1,
           if v == Current then MainPipe(setup) else LegacyPipe(setup))
  }

  /** The status line of a table, as each program prints it. */
  function LineOf(v: Variant, pal: Palette, infos: seq<Option<string>>): string
    requires |infos| == Size(v)
  {
    if v == Current then Render.Render(Layout(infos, LEFT_ALIGNED), pal.normal, SeparatorText(pal))
    else Render.Render(LegacyLayout(infos), LEGACY_NORMAL_COLOR, LEGACY_SEPARATOR)
  }

  /** The `nevents` each program passes to `kevent`: the most events one call hands back. */
  function BatchLimit(v: Variant): (r: nat)
    ensures r <= EVENTS
  {
    if v == Current then EVENTS else LEGACY_EVENTS
  }

  /** What one `kevent` call hands back: failure (`-1`) or a batch of events. */
  datatype Wait = Failed | Ready(events: seq<Event>)

  // ---------------------------------------------------------------------
  // The program

  class StatusLoop {
    const cfg: Config
    const world: World
    const pal: Palette
    /** `char *infos[INFO_ARRAY_SIZE]` */
    const infos: array<Option<string>>
    /** `struct kevent kev_in[EVENTS]` */
    const kevIn: array<Change>
    /** The number of records queued in `kev_in`. */
    var n: nat
    var calls: seq<nat>
    var clockUpdate: int
    var c: Option<int>
    var pipe: seq<int>
    var mpdTrace: seq<MpdCall>
    /** Every line printed so far. */
    var lines: seq<string>
    /** The change lists handed to `kevent`, one per call. */
    var submitted: seq<seq<Change>>
    var exited: bool

    ghost predicate Valid()
      reads this, infos, kevIn
    {
      infos.Length == Size(cfg.variant) && |calls| == infos.Length
      && kevIn.Length == EVENTS && n <= kevIn.Length
    }

    ghost function State(): (st: Sys)
      requires Valid()
      reads this, infos, kevIn
      ensures Wf(cfg.variant, st)
    {
      Sys(infos[..], calls, clockUpdate, c, pipe, mpdTrace, kevIn[..n])
    }

    /** The bootstrap of main.c, ending with the first line. */
    constructor Main(setup: Setup, w: World, pal: Palette)
      ensures Valid() && fresh(infos) && fresh(kevIn)
      ensures cfg == ConfigOf(Current, setup) && world == w && this.pal == pal
      ensures State() == MainBoot(setup, w)
      ensures lines == [LineOf(Current, pal, MainBoot(setup, w).infos)]
      ensures submitted == [] && exited == !setup.kqueueOk
    {
      cfg := ConfigOf(Current, setup);
      world := w;
      this.pal := pal;
      infos := new Option<string>[INFO_ARRAY_SIZE](_ => None);
      kevIn := new Change[EVENTS](_ => Change(Unset, Read, Add, 0));
      n := 0;
      calls := seq(INFO_ARRAY_SIZE, _ => 0);
      clockUpdate := 0;
      c := None;
      pipe := [];
      mpdTrace := [];
      lines := [];
      submitted := [];
      exited := false;
      new;
      assert State() == EmptySys(INFO_ARRAY_SIZE);
      MainInit(setup);
      Print();
      exited := !setup.kqueueOk;
    }

    /** The bootstrap of lemonbar-status.c, with `kev_in` large enough for every record. */
    constructor Legacy(setup: Setup, w: World)
      ensures Valid() && fresh(infos) && fresh(kevIn)
      ensures cfg == ConfigOf(EventLoop.Legacy, setup) && world == w
      ensures State() == LegacyBoot(setup, w)
      ensures lines == [LineOf(EventLoop.Legacy, pal, LegacyTable(setup, w).infos)]
      ensures submitted == [] && exited == !setup.kqueueOk
    {
      cfg := ConfigOf(EventLoop.Legacy, setup);
      world := w;
      pal := Palette(LEGACY_NORMAL_COLOR, "");
      infos := new Option<string>[LEGACY_INFO_ARRAY_SIZE](_ => None);
      kevIn := new Change[EVENTS](_ => Change(Unset, Read, Add, 0));
      n := 0;
      calls := seq(LEGACY_INFO_ARRAY_SIZE, _ => 0);
      clockUpdate := 0;
      c := None;
      pipe := [];
      mpdTrace := [];
      lines := [];
      submitted := [];
      exited := false;
      new;
      assert State() == EmptySys(LEGACY_INFO_ARRAY_SIZE);
      LegacyStart(setup);
    }

    /** The body of lemonbar-status.c's `main` up to its loop: the table, the first line, the records. */
    method LegacyStart(setup: Setup)
      requires Valid() && cfg == ConfigOf(EventLoop.Legacy, setup) && n == 0
      requires State() == EmptySys(LEGACY_INFO_ARRAY_SIZE)
      requires lines == [] && submitted == [] && !exited
      modifies this, infos, kevIn
      ensures Valid() && State() == LegacyBoot(setup, world)
      ensures lines == [LineOf(EventLoop.Legacy, pal, LegacyTable(setup, world).infos)]
      ensures submitted == [] && exited == !setup.kqueueOk
    {
      LegacyFirstLine(setup);
      LegacyTableQueuesNothing(setup, world);
      LegacyArm(setup);
    }

    /** `if ((kq = kqueue()) == -1) err(...)`, else queue the records of lemonbar-status.c. */
    method LegacyArm(setup: Setup)
      requires Valid() && n == 0 && !exited
      modifies this, kevIn
      ensures Valid()
      ensures State() == old(State()).(queued := if setup.kqueueOk then LegacyRegistrations(setup, old(clockUpdate)) else old(State()).queued)
      ensures exited == !setup.kqueueOk && lines == old(lines) && submitted == old(submitted)
    {
      if !setup.kqueueOk {
        exited := true;
        return;
      }
      LegacyQueue(setup);
    }

    /** The slot table of lemonbar-status.c, then the first line printed from it. */
    method LegacyFirstLine(setup: Setup)
      requires Valid() && cfg == ConfigOf(EventLoop.Legacy, setup) && n == 0
      requires State() == EmptySys(LEGACY_INFO_ARRAY_SIZE)
      requires lines == [] && submitted == [] && !exited
      modifies this, infos
      ensures Valid() && State() == LegacyTable(setup, world) && n == 0
      ensures lines == [LineOf(EventLoop.Legacy, pal, LegacyTable(setup, world).infos)]
      ensures submitted == [] && !exited
    {
      LegacyInit(setup);
      ghost var t := LegacyTable(setup, world);
      assert infos[..] == t.infos;
      Print();
    }

    /** The initialisation blocks of main.c, in source order. */
    method MainInit(setup: Setup)
      requires Valid() && cfg == ConfigOf(Current, setup) && n == 0
      requires State() == EmptySys(INFO_ARRAY_SIZE)
      modifies this, infos, kevIn
      ensures Valid() && State() == MainBoot(setup, world)
      ensures lines == old(lines) && submitted == old(submitted) && exited == old(exited)
    {
      InitSources(setup);
      InitRelays(setup);
      InitTimers();
    }

    method InitSources(setup: Setup)
      requires Valid() && cfg.variant == Current && n == 0
      modifies this, infos, kevIn
      ensures Valid() && State() == MainSources(setup, world, old(State())) && n <= 3
      ensures lines == old(lines) && submitted == old(submitted) && exited == old(exited)
    {
      Init(setup.mailFd >= 0, INFO_MAIL, [MailWatch(setup.mailFd)]);
      MpdInit(setup.mpdFd);
      Init(setup.weatherFd >= 0, INFO_WEATHER, [WeatherWatch(setup.weatherFd)]);
    }

    method InitRelays(setup: Setup)
      requires Valid() && cfg == ConfigOf(Current, setup) && n <= 3
      modifies this, infos, kevIn
      ensures Valid() && State() == MainRelays(setup, world, old(State())) && n <= 7
      ensures lines == old(lines) && submitted == old(submitted) && exited == old(exited)
    {
      Init(setup.brightnessOk, INFO_BRIGHTNESS,
           [TimerAdd(BRIGHTNESS_TIMER, BRIGHTNESS_INTERVAL), PipeWatch(MainPipe(setup))]);
      Init(setup.audioOk, INFO_AUDIO, [TimerAdd(AUDIO_TIMER, AUDIO_INTERVAL), PipeWatch(MainPipe(setup))]);
    }

    method InitTimers()
      requires Valid() && cfg.variant == Current && n <= 7
      modifies this, infos, kevIn
      ensures Valid() && State() == MainTimers(world, old(State()))
      ensures lines == old(lines) && submitted == old(submitted) && exited == old(exited)
    {
      ClockInit(true);
      Init(true, INFO_BATTERY, [TimerAdd(BATTERY_TIMER, BATTERY_INTERVAL)]);
      Init(true, INFO_NETWORK, [TimerAdd(NET_TIMER, NET_INTERVAL)]);
    }

    /** The slot table of lemonbar-status.c, filled in source order. */
    method LegacyInit(setup: Setup)
      requires Valid() && cfg == ConfigOf(EventLoop.Legacy, setup)
      requires State() == EmptySys(LEGACY_INFO_ARRAY_SIZE)
      modifies this, infos
      ensures Valid() && State() == LegacyTable(setup, world) && n == old(n)
      ensures lines == old(lines) && submitted == old(submitted) && exited == old(exited)
    {
      ghost var w := world;
      ghost var s0 := State();
      Query(LEGACY_MAIL);
      if setup.mailFd < 0 {
        infos[LEGACY_MAIL] := None;
      }
      ghost var s1 := State();
      assert s1 == LegacyMailBoot(setup.mailFd, w, s0);
      ClockQuery();
      ghost var s2 := State();
      assert s2 == ClockBoot(w, s1, LEGACY_CLOCK, false);
      Query(LEGACY_BATTERY);
      Query(LEGACY_NETWORK);
      ghost var s4 := State();
      if setup.brightnessOk {
        Query(LEGACY_BRIGHTNESS);
      }
      ghost var s5 := State();
      assert s5 == When(setup.brightnessOk, w, s4, LEGACY_BRIGHTNESS);
      Query(LEGACY_WEATHER);
      ghost var s6 := State();
      if setup.audioOk {
        Query(LEGACY_AUDIO);
      }
    }

    /** The change records of lemonbar-status.c, queued after the first line. */
    method LegacyQueue(setup: Setup)
      requires Valid() && n == 0
      modifies this, kevIn
      ensures Valid() && State() == old(State()).(queued := LegacyRegistrations(setup, clockUpdate))
      ensures lines == old(lines) && submitted == old(submitted) && exited == old(exited)
    {
      ghost var st0 := State();
      var timers := [TimerAdd(CLOCK_TIMER, clockUpdate), TimerAdd(BATTERY_TIMER, BATTERY_INTERVAL),
                     TimerAdd(NET_TIMER, NET_INTERVAL)];
      Enqueue(true, timers);
      assert State() == st0.(queued := timers);
      Enqueue(setup.mailFd >= 0, [MailWatch(setup.mailFd)]);
      LegacyQueueRelays(setup);
    }

    method LegacyQueueRelays(setup: Setup)
      requires Valid() && n <= 4
      modifies this, kevIn
      ensures Valid() && State() == old(State()).(queued := old(State()).queued
        + (if setup.brightnessOk then [TimerAdd(BRIGHTNESS_TIMER, BRIGHTNESS_INTERVAL), PipeWatch(LegacyPipe(setup))] else [])
        + (if setup.audioOk then [TimerAdd(AUDIO_TIMER, AUDIO_INTERVAL), PipeWatch(LegacyPipe(setup))] else [])
        + (if setup.weatherFd >= 0 then [WeatherWatch(setup.weatherFd)] else []))
      ensures lines == old(lines) && submitted == old(submitted) && exited == old(exited)
    {
      Enqueue(setup.brightnessOk, [TimerAdd(BRIGHTNESS_TIMER, BRIGHTNESS_INTERVAL), PipeWatch(LegacyPipe(setup))]);
      Enqueue(setup.audioOk, [TimerAdd(AUDIO_TIMER, AUDIO_INTERVAL), PipeWatch(LegacyPipe(setup))]);
      Enqueue(setup.weatherFd >= 0, [WeatherWatch(setup.weatherFd)]);
    }

    /** `output_status(infos)`: print the table as one line. */
    method Print()
      requires Valid()
      modifies this
      ensures Valid() && State() == old(State())
      ensures lines == old(lines) + [LineOf(cfg.variant, pal, infos[..])]
      ensures submitted == old(submitted) && exited == old(exited)
    {
      var line;
      if cfg.variant == Current {
        line := OutputStatus(infos, pal);
      } else {
        line := LegacyOutputStatus(infos);
      }
      lines := lines + [line];
    }

    /** One bootstrap block: when the initialisation worked, fill the slot and queue the records. */
    method Init(ok: bool, slot: nat, regs: seq<Change>)
      requires Valid() && slot < infos.Length && n + |regs| <= kevIn.Length
      modifies this, infos, kevIn
      ensures Valid() && State() == Provide(ok, world, old(State()), slot, regs)
      ensures n == old(n) + (if ok then |regs| else 0)
      ensures lines == old(lines) && submitted == old(submitted) && exited == old(exited)
    {
      if ok {
        Query(slot);
        Enqueue(true, regs);
      }
    }

    /** The MPD block of main.c. */
    method MpdInit(fd: int)
      requires Valid() && cfg.variant == Current && n < kevIn.Length
      modifies this, infos, kevIn
      ensures Valid() && State() == MpdBoot(fd, world, old(State()))
      ensures n == old(n) + (if fd >= 0 then 1 else 0)
      ensures lines == old(lines) && submitted == old(submitted) && exited == old(exited)
    {
      if fd >= 0 {
        Query(INFO_MPD);
        mpdTrace := mpdTrace + [Info, IdleStart];
        Register(MpdWatch(fd));
      }
    }

    /** The clock block: `infos[INFO_CLOCK] = clock_info(&clock_update)`, then arm the timer when `queue`. */
    method ClockInit(queue: bool)
      requires Valid() && (queue ==> n < kevIn.Length)
      modifies this, infos, kevIn
      ensures Valid() && State() == ClockBoot(world, old(State()), ClockSlot(cfg.variant), queue)
      ensures n == old(n) + (if queue then 1 else 0)
      ensures lines == old(lines) && submitted == old(submitted) && exited == old(exited)
    {
      ClockQuery();
      if queue {
        Register(TimerAdd(CLOCK_TIMER, clockUpdate));
      }
    }

    /** `EV_SET(&kev_in[n++], ...)` for each record of a block, when `ok`. */
    method Enqueue(ok: bool, regs: seq<Change>)
      requires Valid() && n + |regs| <= kevIn.Length
      modifies this, kevIn
      ensures Valid() && State() == old(State()).(queued := old(State()).queued + (if ok then regs else []))
      ensures n == old(n) + (if ok then |regs| else 0)
      ensures lines == old(lines) && submitted == old(submitted) && exited == old(exited)
    {
      if !ok {
        assert old(State()).queued + [] == old(State()).queued;
        return;
      }
      var j := 0;
      while j < |regs|
        invariant Valid() && 0 <= j <= |regs| && n == old(n) + j
        invariant State() == old(State()).(queued := old(State()).queued + regs[..j])
        invariant lines == old(lines) && submitted == old(submitted) && exited == old(exited)
      {
        Register(regs[j]);
        assert regs[..j + 1] == regs[..j] + [regs[j]];
        j := j + 1;
      }
      assert regs[..j] == regs;
    }

    /** `infos[slot] = provider()`. */
    method Query(slot: nat)
      requires Valid() && slot < infos.Length
      modifies this, infos
      ensures Valid() && State() == Refresh(world, old(State()), slot) && n == old(n)
      ensures lines == old(lines) && submitted == old(submitted) && exited == old(exited)
    {
      infos[slot] := world.sample(slot, calls[slot]);
      calls := calls[slot := calls[slot] + 1];
    }

    /** `infos[INFO_CLOCK] = clock_info(&clock_update)`. */
    method ClockQuery()
      requires Valid()
      modifies this, infos
      ensures Valid()
      ensures State() == Refresh(world, old(State()), ClockSlot(cfg.variant)).(clockUpdate := world.clockDelay(old(calls[ClockSlot(cfg.variant)])))
      ensures n == old(n)
      ensures lines == old(lines) && submitted == old(submitted) && exited == old(exited)
    {
      var slot := ClockSlot(cfg.variant);
      clockUpdate := world.clockDelay(calls[slot]);
      Query(slot);
    }

    /** `EV_SET(&kev_in[n++], ...)`. */
    method Register(ch: Change)
      requires Valid() && n < kevIn.Length
      modifies this, kevIn
      ensures Valid() && State() == old(State()).(queued := old(State()).queued + [ch])
      ensures n == old(n) + 1
      ensures lines == old(lines) && submitted == old(submitted) && exited == old(exited)
    {
      kevIn[n] := ch;
      n := n + 1;
      assert kevIn[..n] == old(kevIn[..n]) + [ch];
    }

    /** The X relay thread writes one byte into the notification pipe. */
    method Relay(tag: int)
      requires Valid()
      modifies this
      ensures Valid() && State() == old(State()).(pipe := old(pipe) + [tag])
      ensures lines == old(lines) && submitted == old(submitted) && exited == old(exited)
    {
      pipe := pipe + [tag];
    }

    /** The `switch (kev[i].filter)` for one event without `EV_ERROR`. */
    method HandleEvent(ev: Event)
      requires Valid()
      requires IsClock(ev) ==> n + 2 <= kevIn.Length
      modifies this, infos, kevIn
      ensures Valid() && State() == Dispatch(cfg, world, old(State()), ev)
      ensures lines == old(lines) && submitted == old(submitted) && exited == old(exited)
    {
      var v := cfg.variant;
      match ev.filter
      case Vnode =>
        if ev.ident == cfg.mailFd {
          Query(MailSlot(v));
        } else if ev.ident == cfg.weatherFd {
          Query(WeatherSlot(v));
        }
      case Timer =>
        HandleTimer(ev.ident);
      case Read =>
        if cfg.pipeFd == Id(ev.ident) {
          ReadPipeByte();
        } else if v == Current && ev.ident == cfg.mpdFd {
          MpdReady();
        }
    }

    /** `case EVFILT_TIMER`: the timer's provider fills its slot; the clock timer is re-armed. */
    method HandleTimer(ident: nat)
      requires Valid()
      requires ident == CLOCK_TIMER ==> n + 2 <= kevIn.Length
      modifies this, infos, kevIn
      ensures Valid() && State() == Dispatch(cfg, world, old(State()), Event(ident, Timer, false))
      ensures lines == old(lines) && submitted == old(submitted) && exited == old(exited)
    {
      var v := cfg.variant;
      if ident == CLOCK_TIMER {
        ClockQuery();
        Register(Change(Id(CLOCK_TIMER), Timer, Delete, 0));
        Register(Change(Id(CLOCK_TIMER), Timer, Add, clockUpdate));
      } else if ident == BATTERY_TIMER {
        Query(BatterySlot(v));
      } else if ident == NET_TIMER {
        Query(NetSlot(v));
      } else if ident == BRIGHTNESS_TIMER {
        Query(BrightnessSlot(v));
      } else if ident == AUDIO_TIMER {
        Query(AudioSlot(v));
      }
    }

    /** A read on the pipe: take the next byte into `c` when one waits, then refresh the slot it names. */
    method ReadPipeByte()
      requires Valid()
      modifies this, infos
      ensures Valid() && State() == ReadPipe(cfg.variant, world, old(State()))
      ensures n == old(n) && lines == old(lines) && submitted == old(submitted) && exited == old(exited)
    {
      var v := cfg.variant;
      if |pipe| > 0 {
        c := Some(pipe[0]);
        pipe := pipe[1..];
      }
      if c == Some(BRIGHTNESS_EVENT) {
        Query(BrightnessSlot(v));
      } else if c == Some(AUDIO_EVENT) {
        Query(AudioSlot(v));
      }
    }

    /** The MPD socket is readable: `mpd_idle_end`, `mpd_info`, `mpd_idle_start`. */
    method MpdReady()
      requires Valid() && cfg.variant == Current
      modifies this, infos
      ensures Valid() && State() == MpdRefresh(world, old(State()))
      ensures n == old(n) && lines == old(lines) && submitted == old(submitted) && exited == old(exited)
    {
      mpdTrace := mpdTrace + [IdleEnd];
      Query(INFO_MPD);
      mpdTrace := mpdTrace + [Info, IdleStart];
    }

    /**
     * One turn of `for (;;)`: hand the queued records to `kevent` and reset `n`;
     * exit on failure; on an empty batch start over; otherwise dispatch every
     * event in order (exiting on `EV_ERROR`) and print one line.
     */
    method Step(r: Wait)
      requires Valid() && !exited
      requires r.Ready? ==> |r.events| <= BatchLimit(cfg.variant) && Distinct(r.events)
      modifies this, infos, kevIn
      ensures Valid()
      ensures submitted == old(submitted) + [old(kevIn[..n])]
      ensures r.Failed? ==> exited && lines == old(lines)
      ensures r.Ready? && r.events == [] ==>
        !exited && State() == old(State()).(queued := []) && lines == old(lines)
      ensures r.Ready? && r.events != [] ==>
        var out := RunBatch(cfg, world, old(State()).(queued := []), r.events);
        if out.None? then exited && lines == old(lines)
        else !exited && State() == out.value && lines == old(lines) + [LineOf(cfg.variant, pal, out.value.infos)]
    {
      submitted := submitted + [kevIn[..n]];
      n := 0;
      if r.Failed? {
        exited := true;
        return;
      }
      if |r.events| == 0 {
        return;
      }
      var ok := RunEvents(r.events);
      if ok {
        Print();
      }
    }

    /** The `for (i = 0; i < nev; i++)` loop over one batch; `false` when an event carries `EV_ERROR`. */
    method RunEvents(evs: seq<Event>) returns (ok: bool)
      requires Valid() && !exited && n == 0 && Distinct(evs)
      modifies this, infos, kevIn
      ensures Valid()
      ensures ok <==> RunBatch(cfg, world, old(State()), evs).Some?
      ensures ok ==> !exited && State() == RunBatch(cfg, world, old(State()), evs).value
      ensures !ok ==> exited
      ensures lines == old(lines) && submitted == old(submitted)
    {
      ghost var st0 := State();
      DistinctOneClock(evs);
      var i := 0;
      while i < |evs|
        invariant Valid() && 0 <= i <= |evs| && !exited
        invariant RunBatch(cfg, world, State(), evs[i..]) == RunBatch(cfg, world, st0, evs)
        invariant n == 2 * ClockCount(evs[..i])
        invariant lines == old(lines) && submitted == old(submitted)
      {
        var ev := evs[i];
        if ev.error {
          exited := true;
          return false;
        }
        ClockCountSplit(evs, i);
        RunBatchStep(cfg, world, State(), evs, i);
        HandleEvent(ev);
        i := i + 1;
      }
      assert evs[i..] == [];
      return true;
    }
  }

  /** A batch from event `i` on is that event's dispatch, then the rest. */
  lemma RunBatchStep(cfg: Config, w: World, st: Sys, evs: seq<Event>, i: nat)
    requires Wf(cfg.variant, st) && i < |evs| && !evs[i].error
    ensures Wf(cfg.variant, Dispatch(cfg, w, st, evs[i]))
    ensures RunBatch(cfg, w, st, evs[i..]) == RunBatch(cfg, w, Dispatch(cfg, w, st, evs[i]), evs[i + 1..])
  {
    DispatchWf(cfg, w, st, evs[i]);
    assert evs[i..][0] == evs[i] && evs[i..][1..] == evs[i + 1..];
  }

  /** The clock events of a prefix, plus whether the next event is one, never exceed those of the batch. */
  lemma {:induction false} ClockCountSplit(evs: seq<Event>, i: nat)
    requires i < |evs|
    ensures ClockCount(evs[..i + 1]) == ClockCount(evs[..i]) + (if IsClock(evs[i]) then 1 else 0)
    ensures ClockCount(evs[..i + 1]) <= ClockCount(evs)
  {
    ClockCountAppend(evs[..i], [evs[i]]);
    assert evs[..i + 1] == evs[..i] + [evs[i]];
    assert evs == evs[..i + 1] + evs[i + 1..];
    ClockCountAppend(evs[..i + 1], evs[i + 1..]);
  }

  lemma {:induction false} ClockCountAppend(a: seq<Event>, b: seq<Event>)
    ensures ClockCount(a + b) == ClockCount(a) + ClockCount(b)
  {
    if |a| > 0 {
      assert (a + b)[1..] == a[1..] + b;
      ClockCountAppend(a[1..], b);
    } else {
      assert a + b == b;
    }
  }
}
