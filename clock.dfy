/**
 * `clock_info(&next_update)` of clock.c (and its copy in lemonbar-status.c):
 * the local date and time as `%a %b %d, %R` in a buffer of `CLOCK_BUFLEN`
 * bytes, and the delay in milliseconds until the next minute starts, written
 * through the optional out-parameter.
 */
module Clock {
  import opened CString

  const CLOCK_BUFLEN: nat := 18
  /** The delay left in `*next_update` when the time cannot be read. */
  const DEFAULT_UPDATE: int := 10 * 1000

  /** The fields of `struct tm` that the format and the delay read. */
  datatype Tm = Tm(sec: int, min: int, hour: int, mday: int, mon: int, wday: int)

  /** The ranges `localtime_r` guarantees; `tm_sec` is 60 during a leap second. */
  predicate ValidTm(t: Tm) {
    0 <= t.sec <= 60 && 0 <= t.min < 60 && 0 <= t.hour < 24
    && 1 <= t.mday <= 31 && 0 <= t.mon < 12 && 0 <= t.wday < 7
  }

  /** What `time` and `localtime_r` report. */
  datatype Now = TimeFailed | LocalFailed | Local(tm: Tm)

  const DAYS: seq<string> := ["Sun", "Mon", "Tue", "Wed", "Thu", "Fri", "Sat"]
  const MONTHS: seq<string> := ["Jan", "Feb", "Mar", "Apr", "May", "Jun",
                                "Jul", "Aug", "Sep", "Oct", "Nov", "Dec"]

  /** `strftime` of `"%a %b %d, %R"` in the C locale. */
  function Stamp(t: Tm): string
    requires ValidTm(t)
  {
    DAYS[t.wday] + " " + MONTHS[t.mon] + " " + Pad2(t.mday) + ", " + Pad2(t.hour) + ":" + Pad2(t.min)
  }

  /** The stamp always takes 17 bytes, so `strftime` never runs out of the 18-byte buffer. */
  lemma StampFits(t: Tm)
    requires ValidTm(t)
    ensures |Stamp(t)| == CLOCK_BUFLEN - 1
  {
    assert |DAYS[t.wday]| == 3 && |MONTHS[t.mon]| == 3;
  }

  /** The day, hour and minute read back from their places in the stamp. */
  lemma StampFields(t: Tm)
    requires ValidTm(t)
    ensures |Stamp(t)| == 17
    ensures ParseNat(Stamp(t)[8..10]) == t.mday
    ensures ParseNat(Stamp(t)[12..14]) == t.hour && Stamp(t)[14] == ':'
    ensures ParseNat(Stamp(t)[15..17]) == t.min
  {
    StampFits(t);
    var s := Stamp(t);
    assert s == DAYS[t.wday] + " " + MONTHS[t.mon] + " " + (Pad2(t.mday) + ", " + Pad2(t.hour) + ":" + Pad2(t.min));
    assert s[8..10] == Pad2(t.mday);
    assert s[12..14] == Pad2(t.hour);
    assert s[15..17] == Pad2(t.min);
    Pad2RoundTrip(t.mday);
    Pad2RoundTrip(t.hour);
    Pad2RoundTrip(t.min);
  }

  /** The delay until the next minute starts. */
  function NextMinute(sec: int): int {
    (60 - sec) * 1000
  }

  /**
   * `clock_info(next_update)`: `hasNext` says whether `next_update` is non-NULL
   * and `before` is what it points to. The delay is first set to ten seconds and
   * replaced only once the local time is known; a NULL pointer is never written.
   */
  method ClockInfo(now: Now, hasNext: bool, before: int) returns (r: Option<string>, next: int)
    requires now.Local? ==> ValidTm(now.tm)
    ensures !hasNext ==> next == before
    ensures hasNext && !now.Local? ==> next == DEFAULT_UPDATE
    ensures hasNext && now.Local? ==> next == NextMinute(now.tm.sec)
    ensures r.Some? <==> now.Local?
    ensures now.Local? ==> r == Some(Stamp(now.tm))
  {
    next := before;
    if hasNext {
      next := DEFAULT_UPDATE;
    }
    if now.TimeFailed? || now.LocalFailed? {
      return None, next;
    }
    var t := now.tm;
    if hasNext {
      next := NextMinute(t.sec);
    }
    StampFits(t);
    var str := WriteAt("", CLOCK_BUFLEN, Stamp(t));
    assert str == "" + Stamp(t) == Stamp(t);
    r := Some(str);
  }

  /**
   * The delay lands on the next full minute: it lies between 1 and 60 seconds,
   * and is 0 only during a leap second.
   */
  lemma NextMinuteBounds(sec: int)
    requires 0 <= sec <= 60
    ensures 0 <= NextMinute(sec) <= 60 * 1000
    ensures sec * 1000 + NextMinute(sec) == 60 * 1000
    ensures NextMinute(sec) >= 1000 <==> sec <= 59
    ensures NextMinute(sec) % 1000 == 0
  {
  }
}
