/**
 * `weather_info()` of weather.c (and its copy in main.c and lemonbar-status.c):
 * the cached weather report, a JSON document, as `"<temp> °C"` followed by
 * `", <description>"` for each entry of its `weather` array, written through a
 * cursor into a static buffer of `WEATHER_BUFLEN` bytes.
 */
module Weather {
  import opened CString

  const WEATHER_BUFLEN: nat := 48

  /** A JSON value as json-c hands it out; numbers are already rounded by `%.0f`. */
  datatype Json =
    | Null
    | Bool(b: bool)
    | Num(n: int)
    | Str(s: string)
    | Arr(items: seq<Json>)
    | Obj(fields: map<string, Json>)

  /** `json_object_object_get_ex(j, key, &v)`: only an object has members. */
  function Get(j: Json, key: string): (r: Option<Json>)
    ensures r.Some? <==> j.Obj? && key in j.fields
  {
    if j.Obj? && key in j.fields then Some(j.fields[key]) else None
  }

  /**
   * `json_object_get_double`: a number, a boolean as 0 or 1, anything else 0.
   * json-c reads a string with `strtod`; that conversion is not part of this
   * model, and a string counts as 0 here.
   */
  function Number(j: Json): int {
    match j
    case Num(n) => n
    case Bool(b) => if b then 1 else 0
    case _ => 0
  }

  /** `" °C"`, with the degree sign as its two UTF-8 bytes. */
  const CELSIUS: string := [' ', 0xC2 as char, 0xB0 as char, 'C']

  /** `"%.0f °C"` of the temperature. */
  function TempText(t: int): string {
    IntText(t) + CELSIUS
  }

  /** The `description` string of one `weather` entry, when it is an object holding one. */
  function Description(j: Json): Option<string> {
    match Get(j, "description")
    case Some(Str(s)) => Some(s)
    case _ => None
  }

  predicate AllDescribed(items: seq<Json>) {
    forall j :: 0 <= j < |items| ==> Description(items[j]).Some?
  }

  /** The descriptions of the entries, in array order. */
  function Descriptions(items: seq<Json>): (r: seq<string>)
    requires AllDescribed(items)
    ensures |r| == |items|
  {
    if |items| == 0 then []
    else Descriptions(items[..|items| - 1]) + [Description(items[|items| - 1]).value]
  }

  /** `", <d1>, <d2>, ..."`. */
  function Suffix(ds: seq<string>): string {
    if |ds| == 0 then "" else Suffix(ds[..|ds| - 1]) + (", " + ds[|ds| - 1])
  }

  /** The index of the first entry without a description string, or the length of the array. */
  function FirstUndescribed(items: seq<Json>): (r: nat)
    ensures r <= |items| && AllDescribed(items[..r])
    ensures r < |items| ==> Description(items[r]).None?
  {
    if |items| == 0 then 0
    else if Description(items[0]).None? then 0
    else
      var k := FirstUndescribed(items[1..]);
      assert items[..k + 1] == [items[0]] + items[1..][..k];
      k + 1
  }

  /** The report of a well-formed document: the whole text, cut to what the buffer holds. */
  function WeatherText(doc: Json): Option<string> {
    match (Get(doc, "main"), Get(doc, "weather"))
    case (Some(main), Some(Arr(items))) =>
      if Get(main, "temp").Some? && AllDescribed(items) then
        Some(Truncate(TempText(Number(Get(main, "temp").value)) + Suffix(Descriptions(items)), WEATHER_BUFLEN - 1))
      else None
    case _ => None
  }

  /** The text once the temperature `t` is written: each description appended, cut to what the buffer holds. */
  function EntriesText(t: string, items: seq<Json>): Option<string> {
    if AllDescribed(items) then Some(Truncate(t + Suffix(Descriptions(items)), WEATHER_BUFLEN - 1)) else None
  }

  /** What one call of the code as written can do: return a text or `NULL`, or write past the buffer. */
  datatype Outcome = Done(text: Option<string>) | Overrun

  /**
   * Whether the code as written writes past the buffer: before some entry whose
   * description is printed, the untruncated lengths added to the cursor already
   * pass the end of the buffer.
   */
  predicate Overruns(temp: int, items: seq<Json>) {
    OverrunsText(TempText(temp), items)
  }

  predicate OverrunsText(t: string, items: seq<Json>) {
    var k := FirstUndescribed(items);
    exists i :: 0 <= i < k && AllDescribed(items[..i]) && |t + Suffix(Descriptions(items[..i]))| > WEATHER_BUFLEN
  }

  /** No write before entry `i` started past the end of the buffer. */
  predicate FitsBefore(t: string, items: seq<Json>, i: nat)
    requires i <= |items|
  {
    forall j :: 0 <= j < i && AllDescribed(items[..j]) ==> |t + Suffix(Descriptions(items[..j]))| <= WEATHER_BUFLEN
  }

  lemma FitsStep(t: string, items: seq<Json>, i: nat)
    requires i < |items| && FitsBefore(t, items, i) && AllDescribed(items[..i])
    requires |t + Suffix(Descriptions(items[..i]))| <= WEATHER_BUFLEN
    ensures FitsBefore(t, items, i + 1)
  {
  }

  lemma FitsNoOverrun(t: string, items: seq<Json>)
    requires FitsBefore(t, items, FirstUndescribed(items))
    ensures !OverrunsText(t, items)
  {
  }

  lemma OverrunAt(t: string, items: seq<Json>, i: nat)
    requires i < FirstUndescribed(items) && AllDescribed(items[..i])
    requires |t + Suffix(Descriptions(items[..i]))| > WEATHER_BUFLEN
    ensures OverrunsText(t, items)
  {
  }

  lemma SuffixStep(ds: seq<string>, i: nat)
    requires i < |ds|
    ensures Suffix(ds[..i + 1]) == Suffix(ds[..i]) + (", " + ds[i])
  {
    assert ds[..i + 1][..i] == ds[..i];
  }

  lemma DescriptionsPrefix(items: seq<Json>, i: nat)
    requires i < |items| && AllDescribed(items[..i + 1])
    ensures AllDescribed(items[..i])
    ensures Descriptions(items[..i + 1]) == Descriptions(items[..i]) + [Description(items[i]).value]
  {
    assert items[..i + 1][..i] == items[..i];
  }

  /** One more described entry adds its `", <description>"` to the text. */
  lemma TextStep(t: string, items: seq<Json>, i: nat)
    requires i < |items| && AllDescribed(items[..i + 1])
    ensures AllDescribed(items[..i])
    ensures t + Suffix(Descriptions(items[..i + 1]))
      == (t + Suffix(Descriptions(items[..i]))) + (", " + Description(items[i]).value)
  {
    DescriptionsPrefix(items, i);
    var ds := Descriptions(items[..i + 1]);
    SuffixStep(ds, i);
    assert ds[..i + 1] == ds;
    assert ds[..i] == Descriptions(items[..i]);
  }

  /** Appending entry `i`'s `", <description>"` to the buffer holding the text so far. */
  lemma AppendStep(t: string, items: seq<Json>, i: nat, str: string)
    requires i < |items| && AllDescribed(items[..i]) && Description(items[i]).Some?
    requires str == Truncate(t + Suffix(Descriptions(items[..i])), WEATHER_BUFLEN - 1)
    ensures AllDescribed(items[..i + 1])
    ensures WriteAt(str, WEATHER_BUFLEN, ", " + Description(items[i]).value)
      == Truncate(t + Suffix(Descriptions(items[..i + 1])), WEATHER_BUFLEN - 1)
  {
    assert items[..i + 1] == items[..i] + [items[i]];
    TextStep(t, items, i);
    WriteAtTruncated(t + Suffix(Descriptions(items[..i])), ", " + Description(items[i]).value, WEATHER_BUFLEN);
  }

  /**
   * `weather_info()` as written: after each `snprintf` the cursor `strp` moves on
   * by the length the text would have had, and `buflen` drops by as much, so
   * once the text has outgrown the buffer the next write starts beyond it with
   * a negative length read as a huge `size_t`. `doc` is `None` when the file
   * does not load.
   */
  method WeatherInfoAsWritten(doc: Option<Json>) returns (r: Outcome)
    ensures doc.None? ==> r == Done(None)
    ensures doc.Some? && r == Overrun ==> Get(doc.value, "weather").Some? && Get(doc.value, "weather").value.Arr?
    ensures doc.Some? && Get(doc.value, "main").Some? && Get(Get(doc.value, "main").value, "temp").Some?
              && Get(doc.value, "weather").Some? && Get(doc.value, "weather").value.Arr? ==>
      (r == Overrun <==>
        Overruns(Number(Get(Get(doc.value, "main").value, "temp").value), Get(doc.value, "weather").value.items))
    ensures doc.Some? && r.Done? ==> r.text == WeatherText(doc.value)
  {
    if doc.None? {
      return Done(None);
    }
    var obj := doc.value;
    var main := Get(obj, "main");
    if main.None? {
      return Done(None);
    }
    var temp := Get(main.value, "temp");
    if temp.None? {
      return Done(None);
    }
    var t := TempText(Number(temp.value));
    var weather := Get(obj, "weather");
    if weather.None? || !weather.value.Arr? {
      return Done(None);
    }
    r := WriteEntriesAsWritten(t, weather.value.items);
  }

  /**
   * The writes of `weather_info()` as written, from `n = snprintf(strp, buflen,
   * "%.0f °C", ...)` on: the cursor moves by each untruncated length.
   */
  method WriteEntriesAsWritten(t: string, items: seq<Json>) returns (r: Outcome)
    ensures r == Overrun <==> OverrunsText(t, items)
    ensures r.Done? ==> r.text == EntriesText(t, items)
  {
    var str := WriteAt("", WEATHER_BUFLEN, t);
    var n := |t|;
    var off := 0;
    var buflen: int := WEATHER_BUFLEN;
    var i := 0;
    while i < |items|
      invariant i <= |items| && AsWrittenInv(t, items, i, off, n, str)
      invariant buflen == WEATHER_BUFLEN - off
    {
      var d := Description(items[i]);
      if d.None? {
        AsWrittenStops(t, items, i, off, n, str);
        return Done(None);
      }
      off := off + n;
      buflen := buflen - n;
      if buflen < 0 {
        AsWrittenOverruns(t, items, i, off - n, n, str);
        return Overrun;
      }
      AsWrittenStep(t, items, i, off - n, n, str);
      str := WriteAt(str, WEATHER_BUFLEN, ", " + d.value);
      n := |", " + d.value|;
      i := i + 1;
    }
    AsWrittenEnds(t, items, off, n, str);
    return Done(Some(str));
  }

  /**
   * What holds before entry `i` of the code as written: the entries so far are
   * described, the cursor `off` plus the last untruncated length `n` is the
   * length of the whole text, the buffer holds that text cut to size, and no
   * write so far started past the end.
   */
  predicate AsWrittenInv(t: string, items: seq<Json>, i: nat, off: int, n: int, str: string)
    requires i <= |items|
  {
    i <= FirstUndescribed(items) && AllDescribed(items[..i])
    && off + n == |t + Suffix(Descriptions(items[..i]))| && 0 <= off <= WEATHER_BUFLEN
    && str == Truncate(t + Suffix(Descriptions(items[..i])), WEATHER_BUFLEN - 1)
    && FitsBefore(t, items, i)
  }

  /** An entry without a description ends the code as written with `NULL`, before any overrun. */
  lemma AsWrittenStops(t: string, items: seq<Json>, i: nat, off: int, n: int, str: string)
    requires i < |items| && AsWrittenInv(t, items, i, off, n, str) && Description(items[i]).None?
    ensures !OverrunsText(t, items) && EntriesText(t, items).None?
  {
    assert FirstUndescribed(items) == i;
    FitsNoOverrun(t, items);
  }

  /** A described entry whose write would start past the end is the overrun. */
  lemma AsWrittenOverruns(t: string, items: seq<Json>, i: nat, off: int, n: int, str: string)
    requires i < |items| && AsWrittenInv(t, items, i, off, n, str) && Description(items[i]).Some?
    requires off + n > WEATHER_BUFLEN
    ensures OverrunsText(t, items)
  {
    OverrunAt(t, items, i);
  }

  /** Past the last entry without an overrun, the buffer holds the report. */
  lemma AsWrittenEnds(t: string, items: seq<Json>, off: int, n: int, str: string)
    requires AsWrittenInv(t, items, |items|, off, n, str)
    ensures !OverrunsText(t, items) && EntriesText(t, items) == Some(str)
  {
    assert items[..|items|] == items;
    FitsNoOverrun(t, items);
  }

  /** One entry of the code as written, when its write starts inside the buffer. */
  lemma AsWrittenStep(t: string, items: seq<Json>, i: nat, off: int, n: int, str: string)
    requires i < |items| && AsWrittenInv(t, items, i, off, n, str)
    requires Description(items[i]).Some? && off + n <= WEATHER_BUFLEN
    ensures AsWrittenInv(t, items, i + 1, off + n, |", " + Description(items[i]).value|,
                         WriteAt(str, WEATHER_BUFLEN, ", " + Description(items[i]).value))
  {
    FitsStep(t, items, i);
    AppendStep(t, items, i, str);
    TextStep(t, items, i);
  }

  /**
   * `weather_info()` as evidently intended: each entry is appended after the
   * text actually in the buffer, so the report is the whole text cut to 47 bytes.
   */
  method WeatherInfo(doc: Option<Json>) returns (r: Option<string>)
    ensures doc.None? ==> r.None?
    ensures doc.Some? ==> r == WeatherText(doc.value)
  {
    if doc.None? {
      return None;
    }
    var obj := doc.value;
    var main := Get(obj, "main");
    if main.None? {
      return None;
    }
    var temp := Get(main.value, "temp");
    if temp.None? {
      return None;
    }
    var t := TempText(Number(temp.value));
    var weather := Get(obj, "weather");
    if weather.None? || !weather.value.Arr? {
      return None;
    }
    r := WriteEntries(t, weather.value.items);
  }

  /** The `for` loop of `weather_info()` as evidently intended: each description appended after the text in the buffer. */
  method WriteEntries(t: string, items: seq<Json>) returns (r: Option<string>)
    ensures r == EntriesText(t, items)
  {
    var str := WriteAt("", WEATHER_BUFLEN, t);
    var i := 0;
    while i < |items|
      invariant 0 <= i <= |items|
      invariant AllDescribed(items[..i])
      invariant str == Truncate(t + Suffix(Descriptions(items[..i])), WEATHER_BUFLEN - 1)
    {
      var d := Description(items[i]);
      if d.None? {
        return None;
      }
      AppendStep(t, items, i, str);
      str := WriteAt(str, WEATHER_BUFLEN, ", " + d.value);
      i := i + 1;
    }
    assert items[..i] == items;
    return Some(str);
  }

  /** An empty `weather` array gives the temperature alone. */
  lemma WeatherTemperatureOnly(temp: int)
    requires |IntText(temp)| <= WEATHER_BUFLEN - 1 - |CELSIUS|
    ensures WeatherText(Obj(map["main" := Obj(map["temp" := Num(temp)]), "weather" := Arr([])]))
      == Some(TempText(temp))
  {
    assert Suffix(Descriptions([])) == "";
    assert TempText(temp) + "" == TempText(temp);
  }

  /** An entry that is not an object with a description string makes the whole report `NULL`. */
  lemma WeatherBadEntry(doc: Json, i: nat)
    requires Get(doc, "weather").Some? && Get(doc, "weather").value.Arr?
    requires i < |Get(doc, "weather").value.items|
    requires Description(Get(doc, "weather").value.items[i]).None?
    ensures WeatherText(doc).None?
  {
  }

  /** The report begins with the temperature, whole when it fits, followed by each description in array order. */
  lemma WeatherTextShape(doc: Json)
    requires WeatherText(doc).Some?
    ensures var items := Get(doc, "weather").value.items;
      var t := TempText(Number(Get(Get(doc, "main").value, "temp").value));
      AllDescribed(items)
      && WeatherText(doc).value == Truncate(t + Suffix(Descriptions(items)), WEATHER_BUFLEN - 1)
      && (|t| <= WEATHER_BUFLEN - 1 ==> WeatherText(doc).value[..|t|] == t)
  {
    var items := Get(doc, "weather").value.items;
    var t := TempText(Number(Get(Get(doc, "main").value, "temp").value));
    var full := t + Suffix(Descriptions(items));
    assert full[..|t|] == t;
  }

  /**
   * The code as written, on a report whose first description is 41 bytes long
   * and which has a second entry: the cursor reaches offset 49 of the 48-byte
   * buffer before the second entry is written.
   */
  lemma OverrunExample(first: string)
    requires |first| == 41
    ensures var items := [Obj(map["description" := Str(first)]), Obj(map["description" := Str("mist")])];
      Overruns(20, items)
  {
    var items := [Obj(map["description" := Str(first)]), Obj(map["description" := Str("mist")])];
    assert Description(items[0]) == Some(first);
    assert Description(items[1]) == Some("mist");
    assert AllDescribed(items);
    assert FirstUndescribed(items) == 2;
    assert AllDescribed(items[..1]);
    assert Descriptions(items[..1]) == [first];
    assert Suffix([first]) == ", " + first by {
      assert Suffix([first][..0]) == "";
    }
    assert |TempText(20)| == 6 by {
      assert NatText(20) == NatText(2) + [DigitChar(0)];
    }
    assert |TempText(20) + Suffix(Descriptions(items[..1]))| == 49;
  }
}
