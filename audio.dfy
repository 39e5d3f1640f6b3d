/**
 * audio.c (and the copies in main.c and lemonbar-status.c, which hand the two
 * device indexes back through pointers instead of keeping them in statics):
 * the search of the mixer's device list for the output class, the master
 * volume and its mute switch, and the volume text `L:R` built through a cursor
 * in a buffer of `AUDIO_BUFLEN` bytes.
 */
module Audio {
  import opened CString

  const AUDIO_BUFLEN: nat := 8
  /** `AUDIO_MIN_GAIN`, `AUDIO_MAX_GAIN` and `AUDIO_MIXER_LAST` of <sys/audioio.h>. */
  const AUDIO_MIN_GAIN: int := 0
  const AUDIO_MAX_GAIN: int := 255
  const AUDIO_MIXER_LAST: int := -1

  const MIXER_DEVICE_CLASS: string := "outputs"
  const MIXER_DEVICE: string := "master"
  const MIXER_MUTE_DEVICE: string := "mute"

  // ---------------------------------------------------------------------
  // The volume text

  /**
   * `audio_print_volume(str, buflen, vol)`: `_` below the minimum gain, `M` at
   * the maximum, otherwise the gain as a percentage of the range.
   */
  function VolumeText(vol: int): string {
    if vol < AUDIO_MIN_GAIN then "_"
    else if vol >= AUDIO_MAX_GAIN then "M"
    else NatText((vol - AUDIO_MIN_GAIN) * 100 / (AUDIO_MAX_GAIN - AUDIO_MIN_GAIN))
  }

  /** A gain inside the range prints as a number below 100 that reads back as its percentage. */
  lemma VolumePercent(vol: int)
    requires AUDIO_MIN_GAIN <= vol < AUDIO_MAX_GAIN
    ensures 1 <= |VolumeText(vol)| <= 2 && AllDigits(VolumeText(vol))
    ensures ParseNat(VolumeText(vol)) == vol * 100 / 255 < 100
  {
    var p := Percent(vol);
    assert VolumeText(vol) == NatText(p);
    assert Pow10(2) == 100;
    NatTextLength(p, 2);
    NatTextRoundTrip(p);
  }

  /** The percentage of a gain inside the range. */
  function Percent(vol: int): (p: nat)
    requires AUDIO_MIN_GAIN <= vol < AUDIO_MAX_GAIN
    ensures p == vol * 100 / 255 && p < 100
  {
    assert 0 <= vol * 100 < 25500;
    vol * 100 / 255
  }

  /** A louder gain never prints as a smaller percentage. */
  lemma VolumeMonotone(v1: int, v2: int)
    requires AUDIO_MIN_GAIN <= v1 <= v2 < AUDIO_MAX_GAIN
    ensures ParseNat(VolumeText(v1)) <= ParseNat(VolumeText(v2))
  {
    VolumePercent(v1);
    VolumePercent(v2);
    assert v1 * 100 <= v2 * 100;
  }

  /** No volume text holds the `:` that separates the channels. */
  lemma VolumeHasNoColon(vol: int)
    ensures 1 <= |VolumeText(vol)| <= 2 && ':' !in VolumeText(vol)
  {
    if AUDIO_MIN_GAIN <= vol < AUDIO_MAX_GAIN {
      VolumePercent(vol);
      DigitsHaveNo(VolumeText(vol), ':');
    }
  }

  /** What the mixer reports: the two channel gains, each an unsigned byte. */
  datatype Levels = Levels(left: int, right: int)

  predicate ValidLevels(l: Levels) {
    0 <= l.left < 0x100 && 0 <= l.right < 0x100
  }

  /**
   * The audio text: `NULL` when the mixer does not open or a read fails; `_:_`
   * while muted (`ord` non-zero), without reading the gains; `L:R` otherwise.
   * `isOpen` says whether `/dev/mixer` opened, `mute` is the mute read
   * (`None` when it fails) and `levels` the gain read.
   */
  function AudioText(isOpen: bool, mute: Option<int>, levels: Option<Levels>): Option<string> {
    if !isOpen || mute.None? then None
    else if mute.value != 0 then Some(VolumeText(-1) + ":" + VolumeText(-1))
    else if levels.None? then None
    else Some(VolumeText(levels.value.left) + ":" + VolumeText(levels.value.right))
  }

  /** Muted, the text is `_:_` whatever the gains. */
  lemma AudioMuted(mute: int, levels: Option<Levels>)
    requires mute != 0
    ensures AudioText(true, Some(mute), levels) == Some("_:_")
  {
    assert "_" + ":" + "_" == "_:_";
  }

  /** Unmuted, the text splits at its only `:` into the left and the right volume; it fits the buffer. */
  lemma AudioChannels(l: Levels)
    ensures var s := AudioText(true, Some(0), Some(l)).value; var a := VolumeText(l.left);
      |s| <= 5 < AUDIO_BUFLEN && |a| < |s| && s[..|a|] == a && s[|a|] == ':'
      && s[|a| + 1..] == VolumeText(l.right) && ':' !in a && ':' !in s[|a| + 1..]
  {
    VolumeHasNoColon(l.left);
    VolumeHasNoColon(l.right);
    var s := AudioText(true, Some(0), Some(l)).value;
    var a := VolumeText(l.left);
    assert s == a + [':'] + VolumeText(l.right);
    assert s[..|a|] == a;
    assert s[|a| + 1..] == VolumeText(l.right);
  }

  // ---------------------------------------------------------------------
  // The device list

  /** The kinds of mixer device of <sys/audioio.h>. */
  datatype MixerType = Class | Enum | Set | Value

  /** One `struct mixer_devinfo`: its label name, its kind and the next device of its chain. */
  datatype DevInfo = DevInfo(name: string, kind: MixerType, next: int)

  /**
   * `strncmp(name, label, sizeof(name)) == 0` compares the terminating NUL as
   * well, so the label must be the name exactly.
   */
  predicate Is(d: DevInfo, name: string, kind: MixerType) {
    d.name == name && d.kind == kind
  }

  /**
   * The first index of the list holding a device of that name and kind, or -1.
   * `AUDIO_MIXER_DEVINFO` succeeds for the indexes `0 .. |devs| - 1`.
   */
  function First(devs: seq<DevInfo>, name: string, kind: MixerType): (r: int)
    ensures -1 <= r < |devs|
    ensures r >= 0 ==> Is(devs[r], name, kind) && forall j :: 0 <= j < r ==> !Is(devs[j], name, kind)
    ensures r == -1 ==> forall j :: 0 <= j < |devs| ==> !Is(devs[j], name, kind)
  {
    if |devs| == 0 then -1
    else
      var k := First(devs[..|devs| - 1], name, kind);
      if k >= 0 then k
      else if Is(devs[|devs| - 1], name, kind) then |devs| - 1
      else -1
  }

  /** How the walk along the `next` chain ends. */
  datatype Walk = Found(index: nat) | Ended | Cycles

  /**
   * The walk from device `from` along `next`, for at most `fuel` devices: the
   * first mute switch, the end of the chain (`AUDIO_MIXER_LAST` or an index the
   * ioctl refuses), or `Cycles` when the fuel runs out.
   */
  function MuteWalk(devs: seq<DevInfo>, from: int, fuel: nat): (r: Walk)
    ensures r.Found? ==> r.index < |devs| && Is(devs[r.index], MIXER_MUTE_DEVICE, Enum)
    decreases fuel
  {
    if from == AUDIO_MIXER_LAST || !(0 <= from < |devs|) then Ended
    else if fuel == 0 then Cycles
    else if Is(devs[from], MIXER_MUTE_DEVICE, Enum) then Found(from)
    else MuteWalk(devs, devs[from].next, fuel - 1)
  }

  /** The index reached from `from` after following `next` k times; the chain stops outside the list. */
  function Hop(devs: seq<DevInfo>, from: int, k: nat): int
    decreases k
  {
    if k == 0 || !(0 <= from < |devs|) then from
    else Hop(devs, devs[from].next, k - 1)
  }

  /** The first k devices of the chain from `from` all exist and none is a mute switch. */
  predicate Passed(devs: seq<DevInfo>, from: int, k: nat) {
    forall j: nat :: j < k ==>
      0 <= Hop(devs, from, j) < |devs| && !Is(devs[Hop(devs, from, j)], MIXER_MUTE_DEVICE, Enum)
  }

  /**
   * The walk finds the first mute switch along the chain within the fuel,
   * ends only where the chain leaves the list before any mute switch, and
   * cycles only when every device of the fuel's length was passed.
   */
  lemma {:induction false} MuteWalkFirst(devs: seq<DevInfo>, from: int, fuel: nat)
    ensures var r := MuteWalk(devs, from, fuel);
      (r.Found? ==> exists k: nat :: k < fuel && Hop(devs, from, k) == r.index && Passed(devs, from, k))
      && (r.Ended? ==> exists k: nat :: k <= fuel && !(0 <= Hop(devs, from, k) < |devs|) && Passed(devs, from, k))
      && (r.Cycles? ==> Passed(devs, from, fuel) && 0 <= Hop(devs, from, fuel) < |devs|)
    decreases fuel
  {
    if from == AUDIO_MIXER_LAST || !(0 <= from < |devs|) {
      assert Hop(devs, from, 0) == from && Passed(devs, from, 0);
    } else if fuel == 0 {
      assert Hop(devs, from, 0) == from;
    } else if Is(devs[from], MIXER_MUTE_DEVICE, Enum) {
      assert Hop(devs, from, 0) == from && Passed(devs, from, 0);
    } else {
      var next := devs[from].next;
      MuteWalkFirst(devs, next, fuel - 1);
      forall k: nat | Passed(devs, next, k)
        ensures Passed(devs, from, k + 1) && Hop(devs, from, k + 1) == Hop(devs, next, k)
      {
        forall j: nat | j < k + 1
          ensures 0 <= Hop(devs, from, j) < |devs| && !Is(devs[Hop(devs, from, j)], MIXER_MUTE_DEVICE, Enum)
        {
          if j > 0 {
            assert Hop(devs, from, j) == Hop(devs, next, j - 1);
          }
        }
      }
      var r := MuteWalk(devs, next, fuel - 1);
      if r.Found? {
        var k: nat :| k < fuel - 1 && Hop(devs, next, k) == r.index && Passed(devs, next, k);
        assert Hop(devs, from, k + 1) == r.index && Passed(devs, from, k + 1);
      } else if r.Ended? {
        var k: nat :| k <= fuel - 1 && !(0 <= Hop(devs, next, k) < |devs|) && Passed(devs, next, k);
        assert !(0 <= Hop(devs, from, k + 1) < |devs|) && Passed(devs, from, k + 1);
      }
    }
  }

  /** A chain whose every link points forward ends before the fuel of the list length runs out. */
  lemma {:induction false} ForwardChainEnds(devs: seq<DevInfo>, from: int, fuel: nat)
    requires forall j :: 0 <= j < |devs| ==> devs[j].next == AUDIO_MIXER_LAST || devs[j].next > j
    requires from >= 0 ==> from + fuel >= |devs|
    ensures !MuteWalk(devs, from, fuel).Cycles?
    decreases fuel
  {
    if from == AUDIO_MIXER_LAST || !(0 <= from < |devs|) {
    } else if fuel == 0 {
      assert false;
    } else if !Is(devs[from], MIXER_MUTE_DEVICE, Enum) {
      ForwardChainEnds(devs, devs[from].next, fuel - 1);
    }
  }

  /** What `audio_init` reports. */
  datatype InitResult = Terminated | Hangs | Done(ok: bool)

  class Mixer {
    /** The statics `mixer_device`, `mute_device` and `initialized` of audio.c. */
    var mixerDevice: int
    var muteDevice: int
    var initialized: bool

    constructor()
      ensures !initialized
    {
      mixerDevice := 0;
      muteDevice := 0;
      initialized := false;
    }

    /**
     * `audio_init()`: a second call ends the process. Otherwise the output class
     * must exist, `master` is the first value device of the whole list, and
     * `mute` the first enum device along the `next` chain after it. `isOpen`
     * says whether `/dev/mixer` opened.
     */
    method Init(isOpen: bool, devs: seq<DevInfo>) returns (r: InitResult)
      modifies this
      ensures old(initialized) ==> r == Terminated
      ensures !old(initialized) ==> initialized && r != Terminated
      ensures !old(initialized) && !isOpen ==> r == Done(false) && mixerDevice == -1 && muteDevice == -1
      ensures !old(initialized) && isOpen ==>
        var cls := First(devs, MIXER_DEVICE_CLASS, Class);
        var master := First(devs, MIXER_DEVICE, Value);
        if cls == -1 then r == Done(false) && mixerDevice == -1 && muteDevice == -1
        else if master == -1 then r == Done(false) && mixerDevice == -1 && muteDevice == -1
        else
          mixerDevice == master &&
          match MuteWalk(devs, devs[master].next, |devs|)
          case Found(m) => r == Done(true) && muteDevice == m
          case Ended => r == Done(false) && muteDevice == -1
          case Cycles => r == Hangs
    {
      if initialized {
        return Terminated;
      }
      initialized := true;
      var classIndex := -1;
      mixerDevice := -1;
      muteDevice := -1;
      if !isOpen {
        return Done(false);
      }
      classIndex := FindDevice(devs, MIXER_DEVICE_CLASS, Class);
      if classIndex == -1 {
        return Done(false);
      }
      mixerDevice := FindDevice(devs, MIXER_DEVICE, Value);
      if mixerDevice == -1 {
        return Done(false);
      }
      var walk := FollowChain(devs, devs[mixerDevice].next);
      match walk
      case Found(m) =>
        muteDevice := m;
        return Done(true);
      case Ended =>
        return Done(false);
      case Cycles =>
        return Hangs;
    }
  }

  /** `for (devinfo.index = 0; ioctl(...) != -1; devinfo.index++)` until a match. */
  method FindDevice(devs: seq<DevInfo>, name: string, kind: MixerType) returns (index: int)
    ensures index == First(devs, name, kind)
  {
    index := -1;
    var i := 0;
    while i < |devs|
      invariant 0 <= i <= |devs|
      invariant forall j :: 0 <= j < i ==> !Is(devs[j], name, kind)
    {
      if Is(devs[i], name, kind) {
        index := i;
        FirstIsLeast(devs, name, kind, i);
        return;
      }
      i := i + 1;
    }
    FirstIsLeast(devs, name, kind, -1);
  }

  /** The index found by a scan from 0 is the one `First` names. */
  lemma FirstIsLeast(devs: seq<DevInfo>, name: string, kind: MixerType, i: int)
    requires -1 <= i < |devs|
    requires i >= 0 ==> Is(devs[i], name, kind) && forall j :: 0 <= j < i ==> !Is(devs[j], name, kind)
    requires i == -1 ==> forall j :: 0 <= j < |devs| ==> !Is(devs[j], name, kind)
    ensures First(devs, name, kind) == i
  {
    var r := First(devs, name, kind);
    if r >= 0 && i >= 0 {
      assert !(r < i) && !(i < r);
    }
  }

  /**
   * `for (devinfo.index = devinfo.next; devinfo.next != AUDIO_MIXER_LAST &&
   * ioctl(...) != -1; devinfo.index = devinfo.next)` until a mute switch;
   * after as many steps as there are devices the chain has come back on itself.
   */
  method FollowChain(devs: seq<DevInfo>, start: int) returns (r: Walk)
    ensures r == MuteWalk(devs, start, |devs|)
  {
    var index := start;
    var steps := 0;
    while index != AUDIO_MIXER_LAST && 0 <= index < |devs| && steps < |devs|
      invariant 0 <= steps <= |devs|
      invariant MuteWalk(devs, index, |devs| - steps) == MuteWalk(devs, start, |devs|)
      decreases |devs| - steps
    {
      if Is(devs[index], MIXER_MUTE_DEVICE, Enum) {
        return Found(index);
      }
      index := devs[index].next;
      steps := steps + 1;
    }
    if index == AUDIO_MIXER_LAST || !(0 <= index < |devs|) {
      return Ended;
    }
    return Cycles;
  }

  /**
   * `audio_info()`: `ctl(dev)` is the mute read of device `dev` and
   * `gains(dev)` the gain read; `strp` and `buflen` advance by what each piece
   * printed.
   */
  method AudioInfo(isOpen: bool, muteDevice: int, mixerDevice: int,
                   ctl: int -> Option<int>, gains: int -> Option<Levels>) returns (r: Option<string>)
    requires gains(mixerDevice).Some? ==> ValidLevels(gains(mixerDevice).value)
    ensures r == AudioText(isOpen, ctl(muteDevice), gains(mixerDevice))
  {
    var left, right := -1, -1;
    if !isOpen {
      return None;
    }
    var mute := ctl(muteDevice);
    if mute.None? {
      return None;
    }
    if mute.value == 0 {
      var levels := gains(mixerDevice);
      if levels.None? {
        return None;
      }
      left, right := levels.value.left, levels.value.right;
    }
    VolumeHasNoColon(left);
    VolumeHasNoColon(right);
    var str := WriteAt("", AUDIO_BUFLEN, VolumeText(left));
    var n := |VolumeText(left)|;
    var strp, buflen := n, AUDIO_BUFLEN - n;
    str := WriteAt(str, AUDIO_BUFLEN, ":");
    strp, buflen := strp + 1, buflen - 1;
    str := WriteAt(str, AUDIO_BUFLEN, VolumeText(right));
    assert str == VolumeText(left) + ":" + VolumeText(right);
    return Some(str);
  }
}
