/**
 * The dispatch table of the `for (;;)` loop of main.c and of lemonbar-status.c,
 * as a state machine.
 *
 * The kernel queue is abstracted to the batches of events it hands back; each
 * information provider is an uninterpreted function: `World.sample(slot, k)` is
 * the text the provider of `slot` returns on its k-th call. `Sys` is everything
 * the loop keeps between events: the slot table, how often each provider has
 * been asked, the clock delay, the last byte read from the notification pipe,
 * the bytes still in that pipe, the calls made on the MPD connection, and the
 * change records queued in `kev_in[0..n)`.
 */
module EventLoop {
  import opened CString
  import opened Render

  /** Size of `kev_in[]` and of the event list handed to `kevent` in main.c. */
  const EVENTS: nat := 10
  /** The same size in lemonbar-status.c. */
  const LEGACY_EVENTS: nat := 8

  // Timer identifiers (the same order in both programs).
  const CLOCK_TIMER: nat := 0
  const BATTERY_TIMER: nat := 1
  const NET_TIMER: nat := 2
  const BRIGHTNESS_TIMER: nat := 3
  const AUDIO_TIMER: nat := 4

  const BATTERY_INTERVAL: int := 10 * 1000
  const NET_INTERVAL: int := 10 * 1000
  const BRIGHTNESS_INTERVAL: int := 10 * 1000
  const AUDIO_INTERVAL: int := 10 * 1000

  // The bytes the X relay thread writes into the notification pipe.
  const BRIGHTNESS_EVENT: int := 0
  const AUDIO_EVENT: int := 1

  /** main.c (with the MPD slot and the left/right split) or lemonbar-status.c. */
  datatype Variant = Current | Legacy

  function Size(v: Variant): nat {
    if v == Current then INFO_ARRAY_SIZE else LEGACY_INFO_ARRAY_SIZE
  }

  function MailSlot(v: Variant): nat { if v == Current then INFO_MAIL else LEGACY_MAIL }
  function NetSlot(v: Variant): nat { if v == Current then INFO_NETWORK else LEGACY_NETWORK }
  function BatterySlot(v: Variant): nat { if v == Current then INFO_BATTERY else LEGACY_BATTERY }
  function BrightnessSlot(v: Variant): nat { if v == Current then INFO_BRIGHTNESS else LEGACY_BRIGHTNESS }
  function AudioSlot(v: Variant): nat { if v == Current then INFO_AUDIO else LEGACY_AUDIO }
  function WeatherSlot(v: Variant): nat { if v == Current then INFO_WEATHER else LEGACY_WEATHER }
  function ClockSlot(v: Variant): nat { if v == Current then INFO_CLOCK else LEGACY_CLOCK }

  datatype Filter = Vnode | Timer | Read
  /** `EV_ADD`, `EV_ADD | EV_CLEAR` and `EV_DELETE`. */
  datatype Flags = Add | AddClear | Delete
  /** A descriptor or timer number, or the value of a `pipe_fd[0]` that was never set. */
  datatype Ident = Id(value: int) | Unset
  /** One `struct kevent` change record of `kev_in[]`. */
  datatype Change = Change(ident: Ident, filter: Filter, flags: Flags, data: int)
  /** One `struct kevent` handed back by `kevent`; `error` is the `EV_ERROR` flag. */
  datatype Event = Event(ident: nat, filter: Filter, error: bool)
  /** The calls the loop makes on the MPD connection. */
  datatype MpdCall = IdleEnd | Info | IdleStart

  /** What the loop compares event identifiers with. */
  datatype Config = Config(variant: Variant, mailFd: int, weatherFd: int, mpdFd: int, pipeFd: Ident)

  /** The providers: the k-th text of each slot, and the delay of the k-th clock call. */
  datatype World = World(sample: (nat, nat) -> Option<string>, clockDelay: nat -> int)

  datatype Sys = Sys(
    infos: seq<Option<string>>,
    calls: seq<nat>,
    clockUpdate: int,
    c: Option<int>,
    pipe: seq<int>,
    mpdTrace: seq<MpdCall>,
    queued: seq<Change>)

  predicate Wf(v: Variant, st: Sys) {
    |st.infos| == Size(v) && |st.calls| == Size(v)
  }

  /** `infos[slot] = provider()`: the provider's next answer replaces the slot. */
  function Refresh(w: World, st: Sys, slot: nat): Sys
    requires slot < |st.infos| && |st.calls| == |st.infos|
  {
    st.(infos := st.infos[slot := w.sample(slot, st.calls[slot])],
        calls := st.calls[slot := st.calls[slot] + 1])
  }

  /** The clock timer: refresh the clock, then queue a delete and a re-add with the new delay. */
  function ClockTick(w: World, st: Sys, slot: nat): Sys
    requires slot < |st.infos| && |st.calls| == |st.infos|
  {
    var delay := w.clockDelay(st.calls[slot]);
    Refresh(w, st, slot).(
      clockUpdate := delay,
      queued := st.queued + [Change(Id(CLOCK_TIMER), Timer, Delete, 0),
                             Change(Id(CLOCK_TIMER), Timer, Add, delay)])
  }

  /**
   * A read on the pipe: `read(pipe_fd[0], &c, 1)` then a switch on `c`. kqueue
   * reports `EVFILT_READ` on the pipe only when a byte is waiting, so the empty
   * pipe cannot occur there; were it to, the blocking `read` would wait. The
   * model keeps `c` unchanged in that case only to make the function total.
   */
  function ReadPipe(v: Variant, w: World, st: Sys): Sys
    requires Wf(v, st)
  {
    var st1 := if |st.pipe| > 0 then st.(c := Some(st.pipe[0]), pipe := st.pipe[1..]) else st;
    if st1.c == Some(BRIGHTNESS_EVENT) then Refresh(w, st1, BrightnessSlot(v))
    else if st1.c == Some(AUDIO_EVENT) then Refresh(w, st1, AudioSlot(v))
    else st1
  }

  /** MPD readiness: end the idle command, fetch the song, start idling again. */
  function MpdRefresh(w: World, st: Sys): Sys
    requires Wf(Current, st)
  {
    Refresh(w, st, INFO_MPD).(mpdTrace := st.mpdTrace + [IdleEnd, Info, IdleStart])
  }

  /** The body of the `for (i = 0; i < nev; i++)` loop for one event without `EV_ERROR`. */
  function Dispatch(cfg: Config, w: World, st: Sys, ev: Event): Sys
    requires Wf(cfg.variant, st)
  {
    var v := cfg.variant;
    match ev.filter
    case Vnode =>
      if ev.ident == cfg.mailFd then Refresh(w, st, MailSlot(v))
      else if ev.ident == cfg.weatherFd then Refresh(w, st, WeatherSlot(v))
      else st
    case Timer =>
      if ev.ident == CLOCK_TIMER then ClockTick(w, st, ClockSlot(v))
      else if ev.ident == BATTERY_TIMER then Refresh(w, st, BatterySlot(v))
      else if ev.ident == NET_TIMER then Refresh(w, st, NetSlot(v))
      else if ev.ident == BRIGHTNESS_TIMER then Refresh(w, st, BrightnessSlot(v))
      else if ev.ident == AUDIO_TIMER then Refresh(w, st, AudioSlot(v))
      else st
    case Read =>
      if cfg.pipeFd == Id(ev.ident) then ReadPipe(v, w, st)
      else if v == Current && ev.ident == cfg.mpdFd then MpdRefresh(w, st)
      else st
  }

  /**
   * One batch, event by event from the first; `None` when an event carries
   * `EV_ERROR` and the process exits.
   */
  function RunBatch(cfg: Config, w: World, st: Sys, evs: seq<Event>): (r: Option<Sys>)
    requires Wf(cfg.variant, st)
    ensures r.Some? ==> Wf(cfg.variant, r.value)
    decreases |evs|
  {
    if |evs| == 0 then Some(st)
    else if evs[0].error then None
    else
      DispatchWf(cfg, w, st, evs[0]);
      RunBatch(cfg, w, Dispatch(cfg, w, st, evs[0]), evs[1..])
  }

  lemma DispatchWf(cfg: Config, w: World, st: Sys, ev: Event)
    requires Wf(cfg.variant, st)
    ensures Wf(cfg.variant, Dispatch(cfg, w, st, ev))
  {
  }

  // ---------------------------------------------------------------------
  // Which slot an event is for

  /** The slot a timer feeds. */
  function TimerSlot(v: Variant, id: nat): Option<nat> {
    match id
    case 0 => Some(ClockSlot(v))
    case 1 => Some(BatterySlot(v))
    case 2 => Some(NetSlot(v))
    case 3 => Some(BrightnessSlot(v))
    case 4 => Some(AudioSlot(v))
    case _ => None
  }

  /** The slot a relay byte asks to refresh. */
  function TagSlot(v: Variant, c: Option<int>): Option<nat> {
    match c
    case Some(0) => Some(BrightnessSlot(v))
    case Some(1) => Some(AudioSlot(v))
    case _ => None
  }

  /** The value `c` holds after a read from the pipe. */
  function ByteRead(st: Sys): Option<int> {
    if |st.pipe| > 0 then Some(st.pipe[0]) else st.c
  }

  /** The slot an event refreshes, if any. */
  function Target(cfg: Config, st: Sys, ev: Event): Option<nat> {
    var v := cfg.variant;
    match ev.filter
    case Vnode =>
      if ev.ident == cfg.mailFd then Some(MailSlot(v))
      else if ev.ident == cfg.weatherFd then Some(WeatherSlot(v))
      else None
    case Timer => TimerSlot(v, ev.ident)
    case Read =>
      if cfg.pipeFd == Id(ev.ident) then TagSlot(v, ByteRead(st))
      else if v == Current && ev.ident == cfg.mpdFd then Some(INFO_MPD)
      else None
  }

  /** Each event rewrites its own slot, with that provider's next answer, and no other. */
  lemma DispatchTouchesOneSlot(cfg: Config, w: World, st: Sys, ev: Event)
    requires Wf(cfg.variant, st)
    ensures var t := Target(cfg, st, ev); var st' := Dispatch(cfg, w, st, ev);
      (t.Some? ==>
         t.value < |st.infos|
         && st'.infos == st.infos[t.value := w.sample(t.value, st.calls[t.value])]
         && st'.calls == st.calls[t.value := st.calls[t.value] + 1])
      && (t.None? ==> st'.infos == st.infos && st'.calls == st.calls)
  {
    match ev.filter
    case Vnode =>
    case Timer =>
    case Read =>
      if cfg.pipeFd == Id(ev.ident) {
        var st1 := if |st.pipe| > 0 then st.(c := Some(st.pipe[0]), pipe := st.pipe[1..]) else st;
        assert st1.c == ByteRead(st) && st1.infos == st.infos && st1.calls == st.calls;
      }
  }

  /**
   * The routing of file changes and timers: the mailbox refreshes the mail slot
   * and the weather file the weather slot; each of the five timers refreshes its
   * own slot, and the five slots are different.
   */
  lemma EventRouting(cfg: Config, st: Sys, ev: Event)
    ensures ev.filter == Vnode && ev.ident == cfg.mailFd ==> Target(cfg, st, ev) == Some(MailSlot(cfg.variant))
    ensures ev.filter == Vnode && ev.ident != cfg.mailFd && ev.ident == cfg.weatherFd
      ==> Target(cfg, st, ev) == Some(WeatherSlot(cfg.variant))
    ensures ev.filter == Vnode && ev.ident != cfg.mailFd && ev.ident != cfg.weatherFd ==> Target(cfg, st, ev).None?
    ensures ev.filter == Timer ==> (Target(cfg, st, ev).Some? <==> ev.ident < 5)
    ensures ev.filter == Timer && ev.ident == CLOCK_TIMER ==> Target(cfg, st, ev) == Some(ClockSlot(cfg.variant))
    ensures ev.filter == Timer && ev.ident == BATTERY_TIMER ==> Target(cfg, st, ev) == Some(BatterySlot(cfg.variant))
    ensures ev.filter == Timer && ev.ident == NET_TIMER ==> Target(cfg, st, ev) == Some(NetSlot(cfg.variant))
    ensures ev.filter == Timer && ev.ident == BRIGHTNESS_TIMER
      ==> Target(cfg, st, ev) == Some(BrightnessSlot(cfg.variant))
    ensures ev.filter == Timer && ev.ident == AUDIO_TIMER ==> Target(cfg, st, ev) == Some(AudioSlot(cfg.variant))
    ensures forall a: nat, b: nat :: a < 5 && b < 5 && a != b ==> TimerSlot(cfg.variant, a) != TimerSlot(cfg.variant, b)
  {
  }

  /**
   * A pipe read consumes one byte; byte 0 refreshes brightness, byte 1 audio,
   * any other byte nothing. The empty-pipe case, which kqueue's readiness report
   * rules out, is stated only as the total model defines it.
   */
  lemma PipeRouting(cfg: Config, w: World, st: Sys, ev: Event)
    requires Wf(cfg.variant, st) && ev.filter == Read && cfg.pipeFd == Id(ev.ident)
    ensures var st' := Dispatch(cfg, w, st, ev);
      (|st.pipe| > 0 ==> st'.pipe == st.pipe[1..] && st'.c == Some(st.pipe[0]))
      && (|st.pipe| == 0 ==> st'.pipe == st.pipe && st'.c == st.c)
      && (st'.c == Some(BRIGHTNESS_EVENT) ==> Target(cfg, st, ev) == Some(BrightnessSlot(cfg.variant)))
      && (st'.c == Some(AUDIO_EVENT) ==> Target(cfg, st, ev) == Some(AudioSlot(cfg.variant)))
      && (st'.c != Some(BRIGHTNESS_EVENT) && st'.c != Some(AUDIO_EVENT) ==> st'.infos == st.infos)
  {
  }

  /** Only the clock timer queues change records: a delete and then an add with the new delay. */
  lemma ClockRearm(cfg: Config, w: World, st: Sys, ev: Event)
    requires Wf(cfg.variant, st)
    ensures var st' := Dispatch(cfg, w, st, ev);
      var delay := w.clockDelay(st.calls[ClockSlot(cfg.variant)]);
      if ev.filter == Timer && ev.ident == CLOCK_TIMER then
        st'.queued == st.queued + [Change(Id(CLOCK_TIMER), Timer, Delete, 0), Change(Id(CLOCK_TIMER), Timer, Add, delay)]
        && st'.clockUpdate == delay
      else
        st'.queued == st.queued && st'.clockUpdate == st.clockUpdate
  {
  }

  /**
   * MPD readiness (main.c only) runs idle-end, info, idle-start, in that order;
   * no other event talks to MPD.
   */
  lemma MpdOrder(cfg: Config, w: World, st: Sys, ev: Event)
    requires Wf(cfg.variant, st)
    ensures var st' := Dispatch(cfg, w, st, ev);
      if cfg.variant == Current && ev.filter == Read && cfg.pipeFd != Id(ev.ident) && ev.ident == cfg.mpdFd then
        st'.mpdTrace == st.mpdTrace + [IdleEnd, Info, IdleStart]
      else
        st'.mpdTrace == st.mpdTrace
  {
  }

  // ---------------------------------------------------------------------
  // Batches

  /** The kernel reports each (identifier, filter) pair at most once per call. */
  predicate Distinct(evs: seq<Event>) {
    forall i, j :: 0 <= i < j < |evs| ==> (evs[i].ident, evs[i].filter) != (evs[j].ident, evs[j].filter)
  }

  predicate IsClock(ev: Event) {
    ev.filter == Timer && ev.ident == CLOCK_TIMER
  }

  function ClockCount(evs: seq<Event>): nat {
    if |evs| == 0 then 0 else (if IsClock(evs[0]) then 1 else 0) + ClockCount(evs[1..])
  }

  lemma {:induction false} DistinctOneClock(evs: seq<Event>)
    requires Distinct(evs)
    ensures ClockCount(evs) <= 1
  {
    if |evs| > 0 {
      assert Distinct(evs[1..]) by {
        forall i, j | 0 <= i < j < |evs| - 1
          ensures (evs[1..][i].ident, evs[1..][i].filter) != (evs[1..][j].ident, evs[1..][j].filter)
        {
          assert evs[1..][i] == evs[i + 1] && evs[1..][j] == evs[j + 1];
        }
      }
      DistinctOneClock(evs[1..]);
      if IsClock(evs[0]) {
        NoClockAfter(evs);
      }
    }
  }

  lemma {:induction false} NoClockAfter(evs: seq<Event>)
    requires Distinct(evs) && |evs| > 0 && IsClock(evs[0])
    ensures ClockCount(evs[1..]) == 0
  {
    NoClockIn(evs[1..], evs[0]);
  }

  lemma {:induction false} NoClockIn(rest: seq<Event>, first: Event)
    requires IsClock(first)
    requires forall j :: 0 <= j < |rest| ==> (rest[j].ident, rest[j].filter) != (first.ident, first.filter)
    ensures ClockCount(rest) == 0
  {
    if |rest| > 0 {
      NoClockIn(rest[1..], first);
    }
  }

  /** A batch ends in `errx` exactly when one of its events carries `EV_ERROR`. */
  lemma {:induction false} BatchExitsIff(cfg: Config, w: World, st: Sys, evs: seq<Event>)
    requires Wf(cfg.variant, st)
    ensures RunBatch(cfg, w, st, evs).None? <==> exists i :: 0 <= i < |evs| && evs[i].error
    decreases |evs|
  {
    if |evs| > 0 && !evs[0].error {
      DispatchWf(cfg, w, st, evs[0]);
      BatchExitsIff(cfg, w, Dispatch(cfg, w, st, evs[0]), evs[1..]);
      if exists i :: 0 <= i < |evs| && evs[i].error {
        var i :| 0 <= i < |evs| && evs[i].error;
        assert evs[1..][i - 1] == evs[i];
      }
      if exists i :: 0 <= i < |evs[1..]| && evs[1..][i].error {
        var i :| 0 <= i < |evs[1..]| && evs[1..][i].error;
        assert evs[i + 1] == evs[1..][i];
      }
    }
  }

  /** Each clock event of a batch queues two records, and nothing else queues any. */
  lemma {:induction false} BatchQueue(cfg: Config, w: World, st: Sys, evs: seq<Event>)
    requires Wf(cfg.variant, st)
    requires RunBatch(cfg, w, st, evs).Some?
    ensures |RunBatch(cfg, w, st, evs).value.queued| == |st.queued| + 2 * ClockCount(evs)
    ensures RunBatch(cfg, w, st, evs).value.queued[..|st.queued|] == st.queued
    decreases |evs|
  {
    if |evs| > 0 {
      var st1 := Dispatch(cfg, w, st, evs[0]);
      DispatchWf(cfg, w, st, evs[0]);
      ClockRearm(cfg, w, st, evs[0]);
      BatchQueue(cfg, w, st1, evs[1..]);
      var fin := RunBatch(cfg, w, st1, evs[1..]).value.queued;
      assert fin[..|st.queued|] == fin[..|st1.queued|][..|st.queued|];
    }
  }

  /** Within one batch at most two records are queued, so `kev_in[]` never overflows in the loop. */
  lemma BatchQueueBound(cfg: Config, w: World, st: Sys, evs: seq<Event>)
    requires Wf(cfg.variant, st) && Distinct(evs)
    requires RunBatch(cfg, w, st.(queued := []), evs).Some?
    ensures |RunBatch(cfg, w, st.(queued := []), evs).value.queued| <= 2 <= EVENTS
  {
    DistinctOneClock(evs);
    BatchQueue(cfg, w, st.(queued := []), evs);
  }
}
