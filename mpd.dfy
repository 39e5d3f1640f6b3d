/**
 * mpd.c: the MPD client. `mpd_init` checks the server's greeting and starts
 * idling; `mpd_info` asks for the current song, cuts the `Name:` and `Title:`
 * lines out of the response in place with `terminate_str`, and formats
 * `"<name>: <title>\n"` into a buffer of `MPD_INFOLEN` bytes.
 */
module Mpd {
  import opened CString

  const MAXDATASIZE: nat := 1024
  const INIT_BUFLEN: nat := 64
  const IDLESTR: string := "idle player\n"
  const CURRENTSTR: string := "currentsong\n"
  const TITLESTR: string := "\nTitle: "
  const NAMESTR: string := "\nName: "
  const GREETING: string := "OK MPD "
  const UNKNOWN_NAME: string := "UNKNOWN NAME"
  const UNKNOWN_TITLE: string := "UNKNOWN TITLE"

  // ---------------------------------------------------------------------
  // Searching the buffer

  /** A C string ending at a NUL placed at `k` inside it is its first `k` bytes. */
  lemma CStrCut(s: seq<char>, k: nat)
    requires k < |CStr(s)|
    ensures CStr(s[k := '\0']) == CStr(s)[..k]
  {
    var t := CStr(s);
    CStrOfTerminated(s[k := '\0'], t[..k]);
    CStrOfTerminated(t[..k] + ['\0'], t[..k]);
  }

  /** `tag` occurs in `s` at `i`. */
  predicate At(s: seq<char>, tag: seq<char>, i: int) {
    0 <= i && i + |tag| <= |s| && s[i..i + |tag|] == tag
  }

  /** `strstr(s + from, tag)`: the first occurrence of `tag` at or after `from`. */
  function FindFrom(s: seq<char>, tag: seq<char>, from: nat): (r: Option<nat>)
    ensures r.Some? ==> from <= r.value && At(s, tag, r.value)
    ensures forall j :: from <= j && (r.None? || j < r.value) ==> !At(s, tag, j)
    decreases |s| - from
  {
    if from + |tag| > |s| then None
    else if s[from..from + |tag|] == tag then Some(from)
    else FindFrom(s, tag, from + 1)
  }

  /** `strstr(s, tag)`. */
  function Find(s: seq<char>, tag: seq<char>): (r: Option<nat>)
    ensures r.Some? ==> At(s, tag, r.value) && forall j :: 0 <= j < r.value ==> !At(s, tag, j)
    ensures r.None? ==> forall j :: !At(s, tag, j)
  {
    FindFrom(s, tag, 0)
  }

  /** `find_tag(s, tag, offset)`: just past the first occurrence of `tag`, or NULL. */
  function FindTag(s: seq<char>, tag: seq<char>): (r: Option<nat>)
    ensures r.Some? <==> Find(s, tag).Some?
    ensures r.Some? ==> r.value == Find(s, tag).value + |tag| <= |s|
  {
    match Find(s, tag)
    case None => None
    case Some(p) => Some(p + |tag|)
  }

  /** `strchr(s, c)`: the first index of `c`. */
  function Strchr(s: seq<char>, c: char): (r: Option<nat>)
    ensures r.Some? ==> r.value < |s| && s[r.value] == c && c !in s[..r.value]
    ensures r.None? ==> c !in s
  {
    if |s| == 0 then None
    else if s[0] == c then Some(0)
    else
      match Strchr(s[1..], c)
      case None => None
      case Some(k) =>
        assert s[..k + 1] == [s[0]] + s[1..][..k];
        Some(k + 1)
  }

  // ---------------------------------------------------------------------
  // The response

  /** One tagged line: absent, without a newline after it (NULL in `terminate_str`), or its text and where it ends. */
  datatype Line = Missing | Unterminated | Value(text: seq<char>, end: nat)

  function TaggedLine(s: seq<char>, tag: seq<char>): (r: Line)
    ensures r.Missing? <==> FindTag(s, tag).None?
    ensures r.Unterminated? <==> (FindTag(s, tag).Some? && '\n' !in s[FindTag(s, tag).value..])
    ensures r.Value? ==>
      (FindTag(s, tag).Some? && FindTag(s, tag).value <= r.end < |s| && s[r.end] == '\n'
       && r.text == s[FindTag(s, tag).value..r.end] && '\n' !in r.text)
  {
    match FindTag(s, tag)
    case None => Missing
    case Some(q) =>
      match Strchr(s[q..], '\n')
      case None => Unterminated
      case Some(e) =>
        assert s[q..][..e] == s[q..q + e];
        Value(s[q..q + e], q + e)
  }

  /** What `mpd_info` ends in: `exit(1)` on a failed `recv`, a write through NULL, or the text. */
  datatype Outcome = Exit | Fault | Text(info: string)

  /**
   * The song text of the C string `s` in the buffer (the response after the
   * leading `'\n'`): the name line is cut first, so the title is searched only
   * in what comes before the name's newline.
   */
  function SongText(s: seq<char>, infoLen: nat): Outcome
    requires infoLen >= 1
  {
    var name := TaggedLine(s, NAMESTR);
    if name.Unterminated? then Fault
    else
      var s1 := if name.Value? then s[..name.end] else s;
      var title := TaggedLine(s1, TITLESTR);
      if title.Unterminated? then Fault
      else
        Text(Truncate((if name.Value? then name.text else UNKNOWN_NAME) + ": "
                      + (if title.Value? then title.text else UNKNOWN_TITLE) + "\n", infoLen - 1))
  }

  /**
   * A title tag in the text before the name's newline lies wholly before the
   * name tag, and so does the newline ending its line.
   */
  lemma TitleBeforeName(s: seq<char>, p: nat, e: nat, p2: nat, e2: nat)
    requires At(s, NAMESTR, p) && p + 7 <= e < |s| && '\n' !in s[p + 7..e]
    requires At(s[..e], TITLESTR, p2)
    requires p2 + 8 <= e2 < e && '\n' !in s[p2 + 8..e2]
    ensures p2 + 8 <= p && e2 <= p
  {
    var t := s[..e];
    assert s[p2] == t[p2..p2 + 8][0];
    forall k | p < k < e
      ensures s[k] != '\n'
    {
      if k < p + 7 {
        assert s[k] == s[p..p + 7][k - p];
      } else {
        assert s[k] == s[p + 7..e][k - p - 7];
      }
    }
    assert s[p + 1] == s[p..p + 7][1];
    assert s[p2 + 1] == t[p2..p2 + 8][1];
    forall k | p2 < k < p2 + 8
      ensures s[k] != '\n'
    {
      assert s[k] == t[p2..p2 + 8][k - p2];
    }
    assert s[p] == s[p..p + 7][0];
  }

  /**
   * `terminate_str(s + q)` on the buffer whose C string is `s`: the first `'\n'`
   * at or after `q` becomes NUL. With no `'\n'` there `strchr` returns NULL and
   * the write through it faults (`ok` is false, nothing is written).
   */
  method TerminateStr(buf: array<char>, q: nat) returns (ok: bool, e: nat)
    requires q <= |CStr(buf[..])| < buf.Length
    modifies buf
    ensures ok <==> Strchr(CStr(old(buf[..]))[q..], '\n').Some?
    ensures ok ==>
      (e == Strchr(CStr(old(buf[..]))[q..], '\n').value && buf[..] == old(buf[..])[q + e := '\0'])
    ensures !ok ==> buf[..] == old(buf[..])
  {
    ghost var s := CStr(buf[..]);
    var j := q;
    while j < buf.Length && buf[j] != '\0' && buf[j] != '\n'
      invariant q <= j <= |s|
      invariant '\n' !in s[q..j]
    {
      assert buf[j] == s[j];
      assert s[q..j + 1] == s[q..j] + [s[j]];
      j := j + 1;
    }
    if j < buf.Length && buf[j] == '\n' {
      assert j < |s| && s[j] == '\n';
      assert s[q..][..j - q] == s[q..j];
      buf[j] := '\0';
      return true, j - q;
    }
    assert s[q..] == s[q..j];
    return false, 0;
  }

  /**
   * `mpd_info(sockfd)`: `first` and `second` are the two `recv` results (`None`
   * when one fails); `sent` is what it sends, in order. The response lands after
   * `buf[0] = '\n'`, so a tag on its first line is found as well.
   */
  method MpdInfo(first: Option<seq<char>>, second: Option<seq<char>>, infoLen: nat)
    returns (r: Outcome, sent: seq<string>)
    requires infoLen >= 1
    requires first.Some? ==> |first.value| <= MAXDATASIZE - 2
    requires second.Some? ==> |second.value| <= MAXDATASIZE - 2
    ensures first.None? ==> r == Exit && sent == []
    ensures first.Some? && second.None? ==> r == Exit && sent == [CURRENTSTR]
    ensures first.Some? && second.Some? ==>
      r == SongText(['\n'] + CStr(second.value), infoLen)
      && sent == (if r.Fault? then [CURRENTSTR] else [CURRENTSTR, IDLESTR])
  {
    var buf := new char[MAXDATASIZE](_ => '\0');
    buf[0] := '\n';
    sent := [];
    if first.None? {
      return Exit, sent;
    }
    Receive(buf, first.value);
    sent := sent + [CURRENTSTR];
    if second.None? {
      return Exit, sent;
    }
    ReceiveResponse(buf, second.value);
    r := Cut(buf, ['\n'] + CStr(second.value), infoLen);
    if !r.Fault? {
      sent := sent + [IDLESTR];
    }
  }

  /** `recv(sockfd, buf + 1, MAXDATASIZE - 2, 0)`: the bytes land from index 1 on. */
  method Receive(buf: array<char>, data: seq<char>)
    requires buf.Length == MAXDATASIZE && |data| <= MAXDATASIZE - 2
    modifies buf
    ensures buf[0] == old(buf[0]) && buf[1..|data| + 1] == data
    ensures buf[|data| + 1..] == old(buf[|data| + 1..])
  {
    forall i | 0 <= i < |data| {
      buf[1 + i] := data[i];
    }
  }

  /** The second `recv` and `buf[nbytes + 1] = '\0'`: the buffer holds the response behind the leading `'\n'`. */
  method ReceiveResponse(buf: array<char>, data: seq<char>)
    requires buf.Length == MAXDATASIZE && |data| <= MAXDATASIZE - 2 && buf[0] == '\n'
    modifies buf
    ensures CStr(buf[..]) == ['\n'] + CStr(data)
  {
    Receive(buf, data);
    buf[|data| + 1] := '\0';
    Response(buf[..], data);
  }

  /** The buffer after the second `recv`: the leading `'\n'`, the response, a NUL. */
  lemma Response(b: seq<char>, data: seq<char>)
    requires |data| + 1 < |b| && b[0] == '\n' && b[1..|data| + 1] == data && b[|data| + 1] == '\0'
    ensures CStr(b) == ['\n'] + CStr(data)
  {
    var t := ['\n'] + data;
    assert b[..|t|] == t;
    CStrOfTerminated(b, t);
    assert t[1..] == data;
  }

  /** A C string read at `q` ends at the first NUL after it. */
  lemma ReadBack(b: seq<char>, q: nat, end: nat)
    requires q <= end < |b| && '\0' !in b[q..end] && b[end] == '\0'
    ensures CStr(b[q..]) == b[q..end]
  {
    CStrOfTerminated(b[q..], b[q..end]);
    CStrWhole(b[q..end]);
  }

  /**
   * `find_tag` and, when the tag is there, `terminate_str` on the buffer whose
   * C string is `s`: `pos` is the pointer `find_tag` returns, `ok` is false when
   * `terminate_str` writes through NULL, and afterwards the text at `pos` is
   * exactly the tagged line.
   */
  method CutLine(buf: array<char>, ghost s: seq<char>, tag: seq<char>) returns (pos: Option<nat>, ok: bool)
    requires CStr(buf[..]) == s && |s| < buf.Length
    modifies buf
    ensures pos == FindTag(s, tag)
    ensures ok <==> !TaggedLine(s, tag).Unterminated?
    ensures TaggedLine(s, tag).Missing? ==> buf[..] == old(buf[..])
    ensures TaggedLine(s, tag).Value? ==>
      (buf[..] == old(buf[..])[TaggedLine(s, tag).end := '\0']
       && CStr(buf[..]) == s[..TaggedLine(s, tag).end]
       && CStr(buf[pos.value..]) == TaggedLine(s, tag).text)
  {
    pos := FindTag(CStr(buf[..]), tag);
    ok := true;
    if pos.Some? {
      var e;
      ok, e := TerminateStr(buf, pos.value);
      if ok {
        CutAt(old(buf[..]), pos.value, pos.value + e);
        assert buf[..][pos.value..] == buf[pos.value..];
      }
    }
  }

  /**
   * A NUL written at `end`, past `q`, inside the C string of `b`: the C string
   * stops at `end`, and the one read at `q` is the bytes between.
   */
  lemma CutAt(b: seq<char>, q: nat, end: nat)
    requires q <= end < |CStr(b)|
    ensures CStr(b[end := '\0']) == CStr(b)[..end]
    ensures CStr(b[end := '\0'][q..]) == CStr(b)[q..end]
  {
    var s := CStr(b);
    CStrCut(b, end);
    var b2 := b[end := '\0'];
    assert b2[q..end] == s[q..end];
    ReadBack(b2, q, end);
  }

  /** The two cuts and the `snprintf` of `mpd_info`, on the buffer whose C string is `s`. */
  method Cut(buf: array<char>, ghost s: seq<char>, infoLen: nat) returns (r: Outcome)
    requires infoLen >= 1 && CStr(buf[..]) == s && |s| < buf.Length
    modifies buf
    ensures r == SongText(s, infoLen)
  {
    var nameText, titleText, ok := CutTexts(buf, s);
    if !ok {
      return Fault;
    }
    r := Text(Truncate(nameText + ": " + titleText + "\n", infoLen - 1));
  }

  /** What is left of the response once the name line is cut: the text before the name's newline. */
  function NameCut(s: seq<char>): (r: seq<char>)
    ensures |r| <= |s| && r == s[..|r|]
  {
    var name := TaggedLine(s, NAMESTR);
    if name.Value? then s[..name.end] else s
  }

  /** The name and title fields as `mpd_info` prints them, when neither cut faults. */
  function NameField(s: seq<char>): string {
    var name := TaggedLine(s, NAMESTR);
    if name.Value? then name.text else UNKNOWN_NAME
  }

  function TitleField(s: seq<char>): string {
    var title := TaggedLine(NameCut(s), TITLESTR);
    if title.Value? then title.text else UNKNOWN_TITLE
  }

  /**
   * Both `find_tag`/`terminate_str` pairs of `mpd_info`: `ok` is false when one
   * of them writes through NULL; otherwise the two texts read at the pointers.
   */
  method CutTexts(buf: array<char>, ghost s: seq<char>) returns (nameText: string, titleText: string, ok: bool)
    requires CStr(buf[..]) == s && |s| < buf.Length
    modifies buf
    ensures ok <==> !TaggedLine(s, NAMESTR).Unterminated? && !TaggedLine(NameCut(s), TITLESTR).Unterminated?
    ensures ok ==> nameText == NameField(s) && titleText == TitleField(s)
  {
    ghost var nameLine := TaggedLine(s, NAMESTR);
    var name, nameOk := CutLine(buf, s, NAMESTR);
    if !nameOk {
      return "", "", false;
    }
    ghost var s1 := NameCut(s);
    ghost var b1 := buf[..];
    assert CStr(b1) == s1;
    var title, titleOk := CutLine(buf, s1, TITLESTR);
    if !titleOk {
      return "", "", false;
    }
    if name.Some? && title.Some? && TaggedLine(s1, TITLESTR).Value? {
      TitleEndsBeforeName(s);
      UpdateBefore(b1, TaggedLine(s1, TITLESTR).end, name.value);
    }
    nameText := if name.Some? then CStr(buf[name.value..]) else UNKNOWN_NAME;
    titleText := if title.Some? then CStr(buf[title.value..]) else UNKNOWN_TITLE;
    ok := true;
  }

  /** The title line that survives the name cut ends before the name tag's text begins. */
  lemma TitleEndsBeforeName(s: seq<char>)
    requires TaggedLine(s, NAMESTR).Value? && TaggedLine(NameCut(s), TITLESTR).Value?
    ensures TaggedLine(NameCut(s), TITLESTR).end < FindTag(s, NAMESTR).value
  {
    var e := TaggedLine(s, NAMESTR).end;
    var s1 := s[..e];
    var t := TaggedLine(s1, TITLESTR);
    var p2 := Find(s1, TITLESTR).value;
    assert p2 + 8 <= t.end < e;
    assert '\n' !in s[p2 + 8..t.end] by {
      assert t.text == s1[p2 + 8..t.end];
      PrefixSlice(s, e, p2 + 8, t.end);
    }
    TitleBeforeName(s, Find(s, NAMESTR).value, e, p2, t.end);
  }

  lemma PrefixSlice(s: seq<char>, e: nat, i: nat, j: nat)
    requires i <= j <= e <= |s|
    ensures s[..e][i..j] == s[i..j]
  {
  }

  /** A NUL written before `q` leaves the bytes from `q` on alone. */
  lemma UpdateBefore(b: seq<char>, i: nat, q: nat)
    requires i < q <= |b|
    ensures b[i := '\0'][q..] == b[q..]
  {
  }

  /** `strchr` finds the first `c`, wherever the sequence goes on after it. */
  lemma StrchrAt(t: seq<char>, c: char, k: nat)
    requires k < |t| && t[k] == c && c !in t[..k]
    ensures Strchr(t, c) == Some(k)
  {
    assert t[k] in t;
  }

  /**
   * A title line that starts only after the name's newline is cut off with the
   * name, so it goes unseen: the text carries `UNKNOWN TITLE`.
   */
  lemma TitleAfterNameHidden(s: seq<char>, infoLen: nat)
    requires infoLen >= 1 && TaggedLine(s, NAMESTR).Value?
    requires forall j :: At(s, TITLESTR, j) ==> j >= TaggedLine(s, NAMESTR).end
    ensures SongText(s, infoLen)
      == Text(Truncate(TaggedLine(s, NAMESTR).text + ": " + UNKNOWN_TITLE + "\n", infoLen - 1))
  {
    var e := TaggedLine(s, NAMESTR).end;
    forall j | At(s[..e], TITLESTR, j)
      ensures false
    {
      assert |s[..e]| == e && j + 8 <= e;
      assert s[..e][j..j + 8] == s[j..j + 8];
      assert At(s, TITLESTR, j);
    }
    assert TaggedLine(s[..e], TITLESTR) == Missing;
  }

  /** An occurrence that fits in a prefix is one in the whole sequence. */
  lemma AtPrefix(s: seq<char>, tag: seq<char>, j: nat, e: nat)
    requires e <= |s|
    ensures At(s[..e], tag, j) <==> j + |tag| <= e && At(s, tag, j)
  {
    if j + |tag| <= e {
      assert s[..e][j..j + |tag|] == s[j..j + |tag|];
    }
  }

  /** `strstr` finds the first occurrence. */
  lemma FindAt(s: seq<char>, tag: seq<char>, p: nat)
    requires At(s, tag, p) && forall j :: 0 <= j < p ==> !At(s, tag, j)
    ensures Find(s, tag) == Some(p)
  {
  }

  /** Cutting at `e` keeps a title line that ends before `e`. */
  lemma TitleKept(s: seq<char>, e: nat)
    requires TaggedLine(s, TITLESTR).Value? && TaggedLine(s, TITLESTR).end < e <= |s|
    ensures TaggedLine(s[..e], TITLESTR) == TaggedLine(s, TITLESTR)
  {
    var s1 := s[..e];
    var q2 := FindTag(s, TITLESTR).value;
    var end := TaggedLine(s, TITLESTR).end;
    FindPrefix(s, TITLESTR, e);
    assert FindTag(s1, TITLESTR) == Some(q2);
    assert s1[q2..][..end - q2 + 1] == s[q2..][..end - q2 + 1];
    StrchrPrefix(s[q2..], s1[q2..], '\n', end - q2);
    assert s1[q2..end] == s[q2..end];
  }

  /** `strstr` on a prefix that holds the first occurrence finds the same one. */
  lemma FindPrefix(s: seq<char>, tag: seq<char>, e: nat)
    requires Find(s, tag).Some? && Find(s, tag).value + |tag| <= e <= |s|
    ensures Find(s[..e], tag) == Find(s, tag)
  {
    var p := Find(s, tag).value;
    AtPrefix(s, tag, p, e);
    forall j | 0 <= j < p
      ensures !At(s[..e], tag, j)
    {
      AtPrefix(s, tag, j, e);
    }
    FindAt(s[..e], tag, p);
  }

  /** `strchr` on a sequence that agrees up to the first `c` finds the same index. */
  lemma StrchrPrefix(t: seq<char>, u: seq<char>, c: char, k: nat)
    requires Strchr(t, c) == Some(k) && k < |u| && u[..k + 1] == t[..k + 1]
    ensures Strchr(u, c) == Some(k)
  {
    assert u[k] == u[..k + 1][k];
    assert u[..k] == u[..k + 1][..k];
    assert t[..k] == t[..k + 1][..k];
    StrchrAt(u, c, k);
  }

  /**
   * A title line that ends before the name tag starts is found, and the text
   * carries both lines.
   */
  lemma TitleBeforeNameFound(s: seq<char>, infoLen: nat)
    requires infoLen >= 1 && TaggedLine(s, NAMESTR).Value? && TaggedLine(s, TITLESTR).Value?
    requires TaggedLine(s, TITLESTR).end <= Find(s, NAMESTR).value
    ensures SongText(s, infoLen)
      == Text(Truncate(TaggedLine(s, NAMESTR).text + ": " + TaggedLine(s, TITLESTR).text + "\n", infoLen - 1))
  {
    TitleKept(s, TaggedLine(s, NAMESTR).end);
  }

  // ---------------------------------------------------------------------
  // The greeting

  /** `recv(sockfd, buf, len, 0)` on a stream that has `incoming` waiting: at most `len` bytes of it. */
  function Recv(incoming: seq<char>, len: nat): (r: seq<char>)
    ensures |r| == if |incoming| <= len then |incoming| else len
    ensures r == incoming[..|r|]
  {
    if |incoming| <= len then incoming else incoming[..len]
  }

  /** An MPD greeting: more than seven bytes, starting `"OK MPD "`. */
  predicate IsGreeting(data: seq<char>) {
    |data| > 7 && data[..7] == GREETING
  }

  /** What `mpd_init` returns: -1, the socket, or (as written) a write past `buf`. */
  datatype InitOutcome = Failed | Connected(fd: int) | Overflow

  /** As written, `recv` may fill 1023 bytes of the 64-byte `buf`, and the NUL goes at `buf[numbytes]`. */
  predicate InitOverflows(incoming: seq<char>) {
    |Recv(incoming, MAXDATASIZE - 1)| >= INIT_BUFLEN
  }

  /**
   * `mpd_init()` as written: `sock` is the socket the `getaddrinfo`/`connect`
   * loop ends with (`None` when none connects) and `incoming` what the server
   * sent (`None` when `recv` fails). `Overflow` stands for a write past the
   * 64-byte buffer; `sent` is what goes to the server.
   */
  method MpdInitAsWritten(sock: Option<int>, incoming: Option<seq<char>>) returns (r: InitOutcome, sent: seq<string>)
    ensures sock.None? || incoming.None? ==> r == Failed && sent == []
    ensures sock.Some? && incoming.Some? ==>
      (r == Overflow <==> InitOverflows(incoming.value))
    ensures sock.Some? && incoming.Some? && !InitOverflows(incoming.value) ==>
      (r == (if IsGreeting(incoming.value) then Connected(sock.value) else Failed)
       && sent == (if r.Connected? then [IDLESTR] else []))
  {
    sent := [];
    if sock.None? || incoming.None? {
      return Failed, sent;
    }
    var buf := new char[INIT_BUFLEN];
    var data := Recv(incoming.value, MAXDATASIZE - 1);
    if |data| >= buf.Length {
      // recv writes past the end, or the terminator `buf[numbytes]` does
      return Overflow, sent;
    }
    forall i | 0 <= i < |data| {
      buf[i] := data[i];
    }
    buf[|data|] := '\0';
    if |data| <= 7 || buf[..7] != GREETING {
      return Failed, sent;
    }
    assert data[..7] == buf[..7];
    sent := [IDLESTR];
    r := Connected(sock.value);
  }

  /**
   * `mpd_init()` with the evident intent, `recv(sockfd, buf, sizeof buf - 1, 0)`:
   * it stays inside the buffer and accepts exactly the servers that greet as MPD.
   */
  method MpdInit(sock: Option<int>, incoming: Option<seq<char>>) returns (r: InitOutcome, sent: seq<string>)
    ensures r != Overflow
    ensures r.Connected? <==> sock.Some? && incoming.Some? && IsGreeting(incoming.value)
    ensures r.Connected? ==> r.fd == sock.value && sent == [IDLESTR]
    ensures !r.Connected? ==> sent == []
  {
    sent := [];
    if sock.None? || incoming.None? {
      return Failed, sent;
    }
    var buf := new char[INIT_BUFLEN];
    var data := Recv(incoming.value, buf.Length - 1);
    forall i | 0 <= i < |data| {
      buf[i] := data[i];
    }
    buf[|data|] := '\0';
    if |data| <= 7 || buf[..7] != GREETING {
      assert |data| > 7 ==> data[..7] == buf[..7] && incoming.value[..7] == data[..7];
      return Failed, sent;
    }
    assert data[..7] == buf[..7] && incoming.value[..7] == data[..7];
    sent := [IDLESTR];
    r := Connected(sock.value);
  }

  /** A 64-byte greeting, which `MpdInit` accepts, overflows the buffer as written. */
  lemma GreetingOverflowExample()
    ensures var g := GREETING + seq(57, _ => '0');
      IsGreeting(g) && InitOverflows(g)
  {
    var g := GREETING + seq(57, _ => '0');
    assert g[..7] == GREETING;
  }
}
