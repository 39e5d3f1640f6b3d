/**
 * x.c: the brightness field and the X event relay. `x_init` finds the RandR
 * output `eDP1` and the limits of its `Backlight` property and keeps them in
 * module statics; `x_info` shows the current backlight as a percentage;
 * `x_event_loop` turns X events into bytes on the pipe to the main loop.
 */
module X {
  import opened CString
  import opened EventLoop

  const BRIGHTNESS_BUFLEN: nat := 5
  const OUTPUT_NAME: string := "eDP1"
  const AUDIO_MUTE_KEYCODE: int := 160
  const AUDIO_DOWN_KEYCODE: int := 174
  const AUDIO_UP_KEYCODE: int := 176

  /** Constants of <xcb/xproto.h> and <xcb/randr.h>. */
  const XCB_NONE: int := 0
  const XCB_KEY_RELEASE: int := 3
  const XCB_ATOM_INTEGER: int := 19
  const XCB_RANDR_NOTIFY_OUTPUT_CHANGE: int := 1

  // ---------------------------------------------------------------------
  // Matching the output name

  /** The byte `strncmp` sees at index `i`: past the end of a C string it reads its NUL. */
  function CharAt(s: seq<char>, i: nat): char {
    if i < |s| then s[i] else '\0'
  }

  /** `strncmp(a, b, n) == 0`: equal up to `n` bytes or up to a common NUL. */
  predicate StrncmpEq(a: seq<char>, b: seq<char>, n: nat)
    decreases n
  {
    n == 0
    || (CharAt(a, 0) == CharAt(b, 0)
        && (CharAt(a, 0) == '\0' || StrncmpEq(a[1..], b[1..], n - 1)))
  }

  /** `strncmp(OUTPUT_NAME, name, name_length) == 0` for the RandR output name `name`. */
  predicate NameMatches(name: seq<char>) {
    StrncmpEq(OUTPUT_NAME, name, |name|)
  }

  /** Comparing over the length of `b` asks whether `b` is a prefix of the C string `a`. */
  lemma {:induction false} StrncmpIsPrefix(a: seq<char>, b: seq<char>)
    requires '\0' !in a && '\0' !in b
    ensures StrncmpEq(a, b, |b|) <==> |b| <= |a| && b == a[..|b|]
  {
    if |b| > 0 {
      assert b[0] in b;
      if |a| > 0 {
        assert a[0] in a;
        assert '\0' !in a[1..] && '\0' !in b[1..] by {
          assert forall c :: c in a[1..] ==> c in a;
          assert forall c :: c in b[1..] ==> c in b;
        }
        StrncmpIsPrefix(a[1..], b[1..]);
        if b[0] == a[0] && |b| <= |a| {
          assert b[1..] == a[1..][..|b| - 1] <==> b == a[..|b|] by {
            assert b == [b[0]] + b[1..];
            assert a[..|b|] == [a[0]] + a[1..][..|b| - 1];
          }
        }
      }
    }
  }

  /**
   * An output is chosen when its name is a prefix of `"eDP1"`: the empty name,
   * `"e"`, `"eD"`, `"eDP"` and `"eDP1"`, and no longer name.
   */
  lemma OutputNameMatch(name: seq<char>)
    requires '\0' !in name
    ensures NameMatches(name) <==> |name| <= 4 && name == OUTPUT_NAME[..|name|]
  {
    StrncmpIsPrefix(OUTPUT_NAME, name);
  }

  // ---------------------------------------------------------------------
  // What the X server answers

  datatype Version = Version(major: int, minor: int)

  /** One RandR output: its id, and its name (`None` when `get_output_info` fails). */
  datatype Output = Output(id: int, name: Option<seq<char>>)

  /** The `Backlight` property: whether it is a range, and its valid values. */
  datatype Property = Property(range: bool, validValues: seq<int>)

  /**
   * The answers `x_init` gets, in the order it asks: the connection, the RandR
   * extension and its first event, the version, the `Backlight` atom, the root
   * window of each screen, the outputs and the property of the chosen output.
   * A `None` is a request that failed.
   */
  datatype Display = Display(
    connected: bool,
    randrPresent: bool,
    firstEvent: int,
    version: Option<Version>,
    backlightAtom: Option<int>,
    defaultScreen: int,
    roots: seq<int>,
    outputs: Option<seq<Output>>,
    property: Option<Property>)

  /** The screen loop: the root window of screen `defaultScreen`, if there is one. */
  method SelectScreen(roots: seq<int>, defaultScreen: int) returns (screen: Option<int>)
    ensures screen == if 0 <= defaultScreen < |roots| then Some(roots[defaultScreen]) else None
  {
    screen := None;
    var i := defaultScreen;
    var k := 0;
    while k < |roots|
      invariant 0 <= k <= |roots| && i == defaultScreen - k
      invariant screen == if 0 <= defaultScreen < k then Some(roots[defaultScreen]) else None
    {
      if i == 0 {
        screen := Some(roots[k]);
      }
      i := i - 1;
      k := k + 1;
    }
  }

  /** How the output loop ends: a failed `get_output_info`, no match, or the first match. */
  datatype Search = Failed(at: nat) | NotFound | Found(index: nat)

  /** An output the loop passes over: its name was read and does not match. */
  predicate Skipped(o: Output) {
    o.name.Some? && !NameMatches(o.name.value)
  }

  function OutputSearch(outputs: seq<Output>): (r: Search)
    ensures r.Found? ==>
      (r.index < |outputs| && outputs[r.index].name.Some? && NameMatches(outputs[r.index].name.value))
    ensures r.Failed? ==> r.at < |outputs| && outputs[r.at].name.None?
    ensures r.NotFound? ==> forall j :: 0 <= j < |outputs| ==> Skipped(outputs[j])
    ensures r.Found? ==> forall j :: 0 <= j < r.index ==> Skipped(outputs[j])
    ensures r.Failed? ==> forall j :: 0 <= j < r.at ==> Skipped(outputs[j])
  {
    if |outputs| == 0 then NotFound
    else if outputs[0].name.None? then Failed(0)
    else if NameMatches(outputs[0].name.value) then Found(0)
    else
      match OutputSearch(outputs[1..])
      case Failed(k) => Failed(k + 1)
      case NotFound => NotFound
      case Found(k) => Found(k + 1)
  }

  /** The loop over the outputs of the screen resources. */
  method FindOutput(outputs: seq<Output>) returns (r: Search)
    ensures r == OutputSearch(outputs)
  {
    var i := 0;
    while i < |outputs|
      invariant 0 <= i <= |outputs|
      invariant forall j :: 0 <= j < i ==> Skipped(outputs[j])
    {
      if outputs[i].name.None? {
        return Failed(i);
      }
      if NameMatches(outputs[i].name.value) {
        return Found(i);
      }
      i := i + 1;
    }
    return NotFound;
  }

  // ---------------------------------------------------------------------
  // x_init

  /** The module statics `x_init` sets. */
  datatype Statics = Statics(initialized: bool, eventBase: int, backlightAtom: int,
                             root: int, outputOut: int, rangeOut: int)

  /** `x_init` up to the root window: whether it got that far, and the statics set on the way. */
  function Prelude(d: Display, s: Statics): (bool, Statics) {
    if !d.connected || !d.randrPresent then (false, s)
    else
      var s := s.(eventBase := d.firstEvent);
      if d.version.None? || d.version.value.major != 1 || d.version.value.minor < 2 then (false, s)
      else if d.backlightAtom.None? || d.backlightAtom.value == XCB_NONE then (false, s)
      else
        var s := s.(backlightAtom := d.backlightAtom.value);
        var screen := if 0 <= d.defaultScreen < |d.roots| then Some(d.roots[d.defaultScreen]) else None;
        if screen.None? || screen.value == 0 then (false, s)
        else (true, s.(root := screen.value))
  }

  /** The rest of `x_init`: the output, then the limits of its property. */
  function OutputStage(d: Display, s: Statics): (bool, Statics) {
    if d.outputs.None? then (false, s)
    else
      match OutputSearch(d.outputs.value)
      case Failed(_) => (false, s)
      case NotFound => (false, s)
      case Found(i) =>
        var s := s.(outputOut := d.outputs.value[i].id);
        if d.property.None? || !d.property.value.range || |d.property.value.validValues| != 2 then (false, s)
        else
          var limits := d.property.value.validValues;
          (true, s.(rangeOut := limits[1] - limits[0]))
  }

  /** `x_init` on statics not yet initialised: the result and the new statics. */
  function InitSpec(d: Display, s: Statics): (bool, Statics) {
    var (ok, s1) := Prelude(d, s.(initialized := true));
    if ok then OutputStage(d, s1) else (false, s1)
  }

  /** A call of `x_init` terminates the process (`errx`) or returns its result. */
  datatype InitResult = Terminated | Done(ok: bool)

  /**
   * Init succeeds exactly when every request succeeds, RandR is 1.2 or later,
   * the screen has a root, an output matches and its property is a range of two
   * values; then the range is their difference and the output the first match.
   */
  lemma InitOkIff(d: Display, s: Statics)
    ensures InitSpec(d, s).0 <==>
      d.connected && d.randrPresent && d.version.Some? && d.version.value.major == 1
      && d.version.value.minor >= 2 && d.backlightAtom.Some? && d.backlightAtom.value != XCB_NONE
      && 0 <= d.defaultScreen < |d.roots| && d.roots[d.defaultScreen] != 0
      && d.outputs.Some? && OutputSearch(d.outputs.value).Found?
      && d.property.Some? && d.property.value.range && |d.property.value.validValues| == 2
    ensures InitSpec(d, s).0 ==>
      InitSpec(d, s).1 == Statics(true, d.firstEvent, d.backlightAtom.value, d.roots[d.defaultScreen],
        d.outputs.value[OutputSearch(d.outputs.value).index].id,
        d.property.value.validValues[1] - d.property.value.validValues[0])
    ensures InitSpec(d, s).1.initialized
  {
  }

  /**
   * The statics are written as `x_init` goes: any failure after the output search,
   * a failed property query or a property that is not a range of two values,
   * leaves the output set and the range unchanged.
   */
  lemma OutputKeptOnLateFailure(d: Display, s: Statics)
    requires Prelude(d, s.(initialized := true)).0
    requires d.outputs.Some? && OutputSearch(d.outputs.value).Found?
    requires d.property.None? || !d.property.value.range || |d.property.value.validValues| != 2
    ensures !InitSpec(d, s).0
    ensures InitSpec(d, s).1.outputOut == d.outputs.value[OutputSearch(d.outputs.value).index].id
    ensures InitSpec(d, s).1.rangeOut == s.rangeOut
  {
  }

  /** The statics of x.c, with `x_init` and `x_info`. */
  class Backlight {
    var initialized: bool
    var eventBase: int
    var backlightAtom: int
    var root: int
    var outputOut: int
    var rangeOut: int

    function State(): Statics
      reads this
    {
      Statics(initialized, eventBase, backlightAtom, root, outputOut, rangeOut)
    }

    /** The statics as the program starts: all zero. */
    constructor ()
      ensures State() == Statics(false, 0, 0, 0, 0, 0)
    {
      initialized := false;
      eventBase := 0;
      backlightAtom := 0;
      root := 0;
      outputOut := 0;
      rangeOut := 0;
    }

    /** `x_init(pipe_fd)`; a second call terminates the process. */
    method Init(d: Display) returns (r: InitResult)
      modifies this
      ensures old(initialized) ==> r == Terminated && State() == old(State())
      ensures !old(initialized) ==> r == Done(InitSpec(d, old(State())).0)
      ensures !old(initialized) ==> State() == InitSpec(d, old(State())).1
    {
      if initialized {
        return Terminated;
      }
      initialized := true;
      var ok := InitPrelude(d);
      if ok {
        ok := InitOutput(d);
      }
      r := Done(ok);
    }

    method InitPrelude(d: Display) returns (ok: bool)
      modifies this
      ensures (ok, State()) == Prelude(d, old(State()))
    {
      if !d.connected || !d.randrPresent {
        return false;
      }
      eventBase := d.firstEvent;
      if d.version.None? || d.version.value.major != 1 || d.version.value.minor < 2 {
        return false;
      }
      if d.backlightAtom.None? || d.backlightAtom.value == XCB_NONE {
        return false;
      }
      backlightAtom := d.backlightAtom.value;
      var screen := SelectScreen(d.roots, d.defaultScreen);
      if screen.None? || screen.value == 0 {
        return false;
      }
      root := screen.value;
      ok := true;
    }

    method InitOutput(d: Display) returns (ok: bool)
      modifies this
      ensures (ok, State()) == OutputStage(d, old(State()))
    {
      if d.outputs.None? {
        return false;
      }
      var outputs := d.outputs.value;
      var found := FindOutput(outputs);
      if !found.Found? {
        return false;
      }
      outputOut := outputs[found.index].id;
      if d.property.None? || !d.property.value.range || |d.property.value.validValues| != 2 {
        return false;
      }
      var limits := d.property.value.validValues;
      rangeOut := limits[1] - limits[0];
      ok := true;
    }

    /** `x_info()` on the statics. */
    method Info(reply: Option<Reply>) returns (r: Brightness)
      ensures r == BrightnessText(reply, rangeOut)
    {
      if reply.None? {
        return NoReading;
      }
      var p := reply.value;
      if p.kind != XCB_ATOM_INTEGER || p.numItems != 1 || p.format != 32 {
        return NoReading;
      }
      if rangeOut == 0 {
        return DivideByZero;
      }
      var str := WriteAt("", BRIGHTNESS_BUFLEN, IntText(CDiv(p.value * 100, rangeOut)) + "%");
      assert str == Truncate(IntText(CDiv(p.value * 100, rangeOut)) + "%", BRIGHTNESS_BUFLEN - 1);
      r := Shown(str);
    }
  }

  // ---------------------------------------------------------------------
  // x_info

  /** The reply to `get_output_property`: its type, item count, format and first 32-bit item. */
  datatype Reply = Reply(kind: int, numItems: int, format: int, value: int)

  /** What `x_info` shows: NULL, the text, or a division by a zero range. */
  datatype Brightness = NoReading | Shown(text: string) | DivideByZero

  /** `snprintf(str, 5, "%d%%", cur * 100 / range_out)`, after the reply checks. */
  function BrightnessText(reply: Option<Reply>, range: int): Brightness {
    if reply.None? then NoReading
    else if reply.value.kind != XCB_ATOM_INTEGER || reply.value.numItems != 1 || reply.value.format != 32 then NoReading
    else if range == 0 then DivideByZero
    else Shown(Truncate(IntText(CDiv(reply.value.value * 100, range)) + "%", BRIGHTNESS_BUFLEN - 1))
  }

  /**
   * A level between 0 and the range shows as its whole percentage, which fits
   * the buffer untruncated and reads back as at most 100.
   */
  lemma BrightnessPercent(cur: int, range: int)
    requires 0 < range && 0 <= cur <= range
    ensures var b := BrightnessText(Some(Reply(XCB_ATOM_INTEGER, 1, 32, cur)), range);
      b.Shown? && b.text == NatText(cur * 100 / range) + "%"
      && ParseNat(b.text[..|b.text| - 1]) == cur * 100 / range <= 100
  {
    var q := cur * 100 / range;
    assert q <= 100 by {
      assert cur * 100 <= range * 100;
    }
    NatTextLength(q, 3);
    NatTextRoundTrip(q);
    var t := NatText(q) + "%";
    assert t[..|t| - 1] == NatText(q);
  }

  /** The level is not offset by the minimum: with limits 10..110 the lowest level shows as 10%. */
  lemma BrightnessNotOffset()
    ensures BrightnessText(Some(Reply(XCB_ATOM_INTEGER, 1, 32, 10)), 110 - 10) == Shown("10%")
  {
    assert NatText(10) == "10" by {
      assert NatText(1) == "1";
    }
  }

  /** Any reply that is not one 32-bit integer shows nothing. */
  lemma BrightnessNeedsInteger(reply: Reply, range: int)
    requires reply.kind != XCB_ATOM_INTEGER || reply.numItems != 1 || reply.format != 32
    ensures BrightnessText(Some(reply), range) == NoReading
  {
  }

  // ---------------------------------------------------------------------
  // x_event_loop

  /** The byte an event with this `response_type` writes to the pipe, if any. */
  function EventByte(responseType: int, eventBase: int): (r: Option<int>)
    ensures r == Some(BRIGHTNESS_EVENT) <==> responseType == eventBase + XCB_RANDR_NOTIFY_OUTPUT_CHANGE
    ensures r == Some(AUDIO_EVENT) <==>
      responseType == XCB_KEY_RELEASE && responseType != eventBase + XCB_RANDR_NOTIFY_OUTPUT_CHANGE
    ensures r.None? <==>
      responseType != eventBase + XCB_RANDR_NOTIFY_OUTPUT_CHANGE && responseType != XCB_KEY_RELEASE
  {
    if responseType == eventBase + XCB_RANDR_NOTIFY_OUTPUT_CHANGE then Some(BRIGHTNESS_EVENT)
    else if responseType == XCB_KEY_RELEASE then Some(AUDIO_EVENT)
    else None
  }

  /** The bytes a run of events writes, in order. */
  function Written(events: seq<int>, eventBase: int): seq<int> {
    if |events| == 0 then []
    else
      var last := EventByte(events[|events| - 1], eventBase);
      Written(events[..|events| - 1], eventBase) + (if last.Some? then [last.value] else [])
  }

  /** Events are relayed one after the other: the bytes of two runs are the bytes of each. */
  lemma {:induction false} WrittenAppend(a: seq<int>, b: seq<int>, eventBase: int)
    ensures Written(a + b, eventBase) == Written(a, eventBase) + Written(b, eventBase)
    decreases |b|
  {
    if |b| > 0 {
      var ab := a + b;
      assert ab[..|ab| - 1] == a + b[..|b| - 1];
      assert ab[|ab| - 1] == b[|b| - 1];
      WrittenAppend(a, b[..|b| - 1], eventBase);
    } else {
      assert a + b == a;
    }
  }

  /** Only the two pipe bytes are written, at most one per event. */
  lemma {:induction false} WrittenBytes(events: seq<int>, eventBase: int)
    ensures |Written(events, eventBase)| <= |events|
    ensures forall k :: 0 <= k < |Written(events, eventBase)| ==>
      Written(events, eventBase)[k] == BRIGHTNESS_EVENT || Written(events, eventBase)[k] == AUDIO_EVENT
  {
    if |events| > 0 {
      WrittenBytes(events[..|events| - 1], eventBase);
    }
  }

  /**
   * `x_event_loop(conn, root, randr_event_base, out)` over the events
   * `xcb_wait_for_event` delivers before it returns NULL: the bytes written to
   * `out`.
   */
  method XEventLoop(events: seq<int>, eventBase: int) returns (written: seq<int>)
    ensures written == Written(events, eventBase)
  {
    written := [];
    var i := 0;
    while i < |events|
      invariant 0 <= i <= |events|
      invariant written == Written(events[..i], eventBase)
    {
      assert events[..i + 1][..i] == events[..i];
      if events[i] == eventBase + XCB_RANDR_NOTIFY_OUTPUT_CHANGE {
        written := written + [BRIGHTNESS_EVENT];
      } else if events[i] == XCB_KEY_RELEASE {
        written := written + [AUDIO_EVENT];
      }
      i := i + 1;
    }
    assert events[..i] == events;
  }
}
