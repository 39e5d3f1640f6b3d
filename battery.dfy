/**
 * `battery_info()` of battery.c (and its copy in lemonbar-status.c): the APM
 * power report as `H:MM (N%)`, `--:-- (N%)` or `A/C (N%)` in a static buffer of
 * `BATT_INFO_BUFLEN` bytes, built in two steps at offset `n`.
 */
module Battery {
  import opened CString

  const BATT_INFO_BUFLEN: nat := 13
  /** `APM_AC_OFF` and `APM_AC_ON` of <machine/apmvar.h>. */
  const APM_AC_OFF: int := 0
  const APM_AC_ON: int := 1

  /**
   * The fields of `struct apm_power_info` that are read: `ac_state` and
   * `battery_life` are `u_char`, `minutes_left` is `u_int`.
   */
  datatype PowerInfo = PowerInfo(acState: int, minutesLeft: int, batteryLife: int)

  predicate ValidInfo(p: PowerInfo) {
    0 <= p.acState < 0x100 && 0 <= p.minutesLeft < 0x1_0000_0000 && 0 <= p.batteryLife < 0x100
  }

  /** `"%d:%02d"` of the hours and minutes left. */
  function TimeLeft(minutes: nat): string {
    NatText(minutes / 60) + ":" + Pad2(minutes % 60)
  }

  /** `" (%d%%)"` of the charge. */
  function Charge(life: nat): string {
    " (" + NatText(life) + "%)"
  }

  /**
   * What precedes the charge: nothing for an AC state other than off and on;
   * with AC off the time left, or `--:--` when `minutes_left` read as an `int`
   * is negative (the driver's "unknown").
   */
  function Head(p: PowerInfo): Option<string>
    requires ValidInfo(p)
  {
    if p.acState == APM_AC_OFF then
      var minutes := UintToInt(p.minutesLeft);
      Some(if minutes < 0 then "--:--" else TimeLeft(minutes))
    else if p.acState == APM_AC_ON then Some("A/C")
    else None
  }

  /** The battery text: the head and the charge, cut to what the buffer holds. */
  function BatteryText(p: PowerInfo): Option<string>
    requires ValidInfo(p)
  {
    match Head(p)
    case None => None
    case Some(h) => Some(Truncate(h + Charge(p.batteryLife), BATT_INFO_BUFLEN - 1))
  }

  /** The time left never takes more than 11 bytes: at most 8 digits of hours. */
  lemma TimeLeftLength(minutes: nat)
    requires minutes <= INT32_MAX
    ensures |TimeLeft(minutes)| <= 11
  {
    assert Pow10(8) == 100000000;
    NatTextLength(minutes / 60, 8);
  }

  /**
   * `battery_info()`: `None` when `/dev/apm` does not open or the ioctl fails
   * (`reading` is `None`) and for an unknown AC state.
   */
  method BatteryInfo(reading: Option<PowerInfo>) returns (r: Option<string>)
    requires reading.Some? ==> ValidInfo(reading.value)
    ensures reading.None? ==> r.None?
    ensures reading.Some? ==> r == BatteryText(reading.value)
  {
    if reading.None? {
      return None;
    }
    var info := reading.value;
    var str: string := "";
    var n := -1;
    if info.acState == APM_AC_OFF {
      var minutes := UintToInt(info.minutesLeft);
      if minutes < 0 {
        str := WriteAt("", BATT_INFO_BUFLEN, "--:--");
        n := 5;
      } else {
        var t := TimeLeft(minutes);
        TimeLeftLength(minutes);
        str := WriteAt("", BATT_INFO_BUFLEN, t);
        n := |t|;
      }
    }
    if info.acState == APM_AC_OFF || info.acState == APM_AC_ON {
      if n < 0 {
        str := WriteAt("", BATT_INFO_BUFLEN, "A/C");
        n := 3;
      }
      // snprintf(str + n, BATT_INFO_BUFLEN - n, ...): the head was written whole
      assert str == Head(info).value && n == |str| <= 11;
      ghost var head := str;
      str := WriteAt(str[..n], BATT_INFO_BUFLEN, Charge(info.batteryLife));
      WriteAtTruncated(head, Charge(info.batteryLife), BATT_INFO_BUFLEN);
      return Some(str);
    }
    return None;
  }

  /** A text exactly for AC off and AC on, and never longer than 12 bytes. */
  lemma BatteryTextStates(p: PowerInfo)
    requires ValidInfo(p)
    ensures BatteryText(p).Some? <==> p.acState == APM_AC_OFF || p.acState == APM_AC_ON
    ensures BatteryText(p).Some? ==> |BatteryText(p).value| <= BATT_INFO_BUFLEN - 1
  {
  }

  /** On AC power the text is `A/C (N%)`, never cut. */
  lemma BatteryOnPower(p: PowerInfo)
    requires ValidInfo(p) && p.acState == APM_AC_ON
    ensures BatteryText(p) == Some("A/C" + Charge(p.batteryLife))
  {
    assert Pow10(3) == 1000;
    NatTextLength(p.batteryLife, 3);
  }

  /** An unknown time left prints `--:-- (N%)`, which fills the buffer exactly at 100% and more. */
  lemma BatteryUnknownTime(p: PowerInfo)
    requires ValidInfo(p) && p.acState == APM_AC_OFF && p.minutesLeft >= 0x8000_0000
    ensures BatteryText(p) == Some("--:--" + Charge(p.batteryLife))
  {
    assert Pow10(3) == 1000;
    NatTextLength(p.batteryLife, 3);
  }

  /** The hours and minutes printed read back as the minutes left. */
  lemma TimeLeftRoundTrip(minutes: nat)
    ensures ParseNat(NatText(minutes / 60)) * 60 + ParseNat(Pad2(minutes % 60)) == minutes
  {
    NatTextRoundTrip(minutes / 60);
    Pad2RoundTrip(minutes % 60);
  }

  /**
   * On battery the time left is always printed whole; only the charge can be
   * cut, and it is not while less than 100 hours are left.
   */
  lemma BatteryTimeKept(p: PowerInfo)
    requires ValidInfo(p) && p.acState == APM_AC_OFF && p.minutesLeft < 0x8000_0000
    ensures var t := TimeLeft(p.minutesLeft);
      BatteryText(p).Some? && |t| <= |BatteryText(p).value| && BatteryText(p).value[..|t|] == t
    ensures p.minutesLeft < 6000 ==>
      BatteryText(p) == Some(TimeLeft(p.minutesLeft) + Charge(p.batteryLife))
  {
    var t := TimeLeft(p.minutesLeft);
    TimeLeftLength(p.minutesLeft);
    var full := t + Charge(p.batteryLife);
    assert full[..|t|] == t;
    if p.minutesLeft < 6000 {
      assert Pow10(2) == 100 && Pow10(3) == 1000;
      NatTextLength(p.minutesLeft / 60, 2);
      NatTextLength(p.batteryLife, 3);
    }
  }
}
