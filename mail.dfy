/**
 * mail.c (and the copies `mail_file`, `mail_info`, `timespec_later` in
 * lemonbar-status.c): the mailbox path of the logged-in user, and the new-mail
 * marker, shown while the mailbox was modified after it was last read.
 */
module Mail {
  import opened CString

  const MAILPATH_BUFLEN: nat := 256
  /** `_PATH_MAILDIR` of <paths.h>. */
  const PATH_MAILDIR: string := "/var/mail"
  const MAIL_TEXT: string := "MAIL"
  /** The colours lemonbar-status.c defines for itself; mail.c takes them from colors.h. */
  const LEGACY_MAIL_COLOR: string := "%{F#FFFF00}"
  const LEGACY_NORMAL_COLOR: string := "%{F#DDDDDD}"

  datatype Timespec = Timespec(sec: int, nsec: int)

  /** `timespec_later(t1, t2)`: was `t1` later than `t2`? */
  predicate Later(t1: Timespec, t2: Timespec) {
    if t1.sec == t2.sec then t1.nsec > t2.nsec else t1.sec > t2.sec
  }

  /** A time as the kernel hands it out: the nanoseconds below one second. */
  predicate Normal(t: Timespec) {
    0 <= t.nsec < 1_000_000_000
  }

  /** The same instant counted in nanoseconds. */
  function Nanos(t: Timespec): int {
    t.sec * 1_000_000_000 + t.nsec
  }

  /** On normalised times `timespec_later` is the order of the instants. */
  lemma LaterIsNanosOrder(t1: Timespec, t2: Timespec)
    requires Normal(t1) && Normal(t2)
    ensures Later(t1, t2) <==> Nanos(t1) > Nanos(t2)
  {
    if t1.sec > t2.sec {
      assert t1.sec * 1_000_000_000 >= t2.sec * 1_000_000_000 + 1_000_000_000;
    } else if t1.sec < t2.sec {
      assert t2.sec * 1_000_000_000 >= t1.sec * 1_000_000_000 + 1_000_000_000;
    }
  }

  /** `timespec_later` is a strict total order: irreflexive, asymmetric, transitive, and total on distinct times. */
  lemma LaterStrictOrder(a: Timespec, b: Timespec, c: Timespec)
    ensures !Later(a, a)
    ensures Later(a, b) ==> !Later(b, a)
    ensures Later(a, b) && Later(b, c) ==> Later(a, c)
    ensures a != b ==> Later(a, b) || Later(b, a)
  {
  }

  /** What `fstat` reports of the mailbox: the modification and access times. */
  datatype Stat = Stat(mtim: Timespec, atim: Timespec)

  /**
   * `mail_info(fd)`: `None` for a negative descriptor or when `fstat` fails
   * (`st` is `None`); the coloured marker when the mailbox was modified after
   * it was last read; `None` otherwise.
   */
  function MailInfo(fd: int, st: Option<Stat>, mailColor: string, normalColor: string): (r: Option<string>)
    ensures r.Some? ==> r.value == mailColor + MAIL_TEXT + normalColor
  {
    if fd < 0 then None
    else if st.None? then None
    else if Later(st.value.mtim, st.value.atim) then Some(mailColor + MAIL_TEXT + normalColor)
    else None
  }

  /** The marker is shown exactly when new mail arrived since the mailbox was last read. */
  lemma MailMarkerIff(fd: int, st: Option<Stat>, mailColor: string, normalColor: string)
    requires st.Some? ==> Normal(st.value.mtim) && Normal(st.value.atim)
    ensures MailInfo(fd, st, mailColor, normalColor).Some? <==>
      fd >= 0 && st.Some? && Nanos(st.value.mtim) > Nanos(st.value.atim)
  {
    if st.Some? {
      LaterIsNanosOrder(st.value.mtim, st.value.atim);
    }
  }

  /** Reading the mailbox (an access at or after its last change) clears the marker. */
  lemma MailReadClears(fd: int, mtim: Timespec, atim: Timespec, mailColor: string, normalColor: string)
    requires Normal(mtim) && Normal(atim) && Nanos(atim) >= Nanos(mtim)
    ensures MailInfo(fd, Some(Stat(mtim, atim)), mailColor, normalColor).None?
  {
    LaterIsNanosOrder(mtim, atim);
  }

  /** The mailbox path: `_PATH_MAILDIR "/"` and the login, as much as 256 bytes hold. */
  function MailPath(user: string): (r: string)
    ensures |r| < MAILPATH_BUFLEN
  {
    Truncate(PATH_MAILDIR + "/" + user, MAILPATH_BUFLEN - 1)
  }

  /**
   * `mail_init()`: `strlcpy` of the directory, `strlcat` of the login, then
   * `open`. Without a login name (`login` is `None`) it returns -1 and opens
   * nothing. `open` stands for the `open(2)` call on the path.
   */
  method MailInit(login: Option<string>, open: string -> int) returns (fd: int, path: string)
    ensures login.None? ==> fd == -1 && path == PATH_MAILDIR + "/"
    ensures login.Some? ==> path == MailPath(login.value) && fd == open(path)
  {
    path := WriteAt("", MAILPATH_BUFLEN, PATH_MAILDIR + "/");
    fd := -1;
    if login.None? {
      return;
    }
    path := WriteAt(path, MAILPATH_BUFLEN, login.value);
    WriteAtTruncated(PATH_MAILDIR + "/", login.value, MAILPATH_BUFLEN);
    fd := open(path);
  }

  /** The path always names a file in the mail directory, and a login of up to 245 bytes is kept whole. */
  lemma MailPathShape(user: string)
    ensures |MailPath(user)| >= 10 && MailPath(user)[..10] == PATH_MAILDIR + "/"
    ensures |user| <= MAILPATH_BUFLEN - 11 ==> MailPath(user)[10..] == user
    ensures |user| > MAILPATH_BUFLEN - 11 ==> MailPath(user)[10..] == user[..MAILPATH_BUFLEN - 11]
  {
    var full := PATH_MAILDIR + "/" + user;
    assert full[..10] == PATH_MAILDIR + "/";
    assert full[10..] == user;
    if |user| > MAILPATH_BUFLEN - 11 {
      assert MailPath(user) == full[..MAILPATH_BUFLEN - 1];
      assert full[..MAILPATH_BUFLEN - 1][10..] == full[10..MAILPATH_BUFLEN - 1];
    }
  }
}
