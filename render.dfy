/**
 * The status line: how the table of optional texts (one slot per information
 * source) becomes one line of lemonbar markup.
 *
 * A line is described by its pieces (the slot texts, the separators, the
 * alignment markup and the final newline) and `Render` spells the pieces out.
 * main.c splits the table at `LEFT_ALIGNED`: slots up to the cut go to the
 * left-aligned section `%{l}`, the rest to the right-aligned section `%{r}`.
 * The older lemonbar-status.c puts every slot on the right.
 */
module Render {
  import opened CString

  // The slot table of main.c, in enum order.
  const INFO_MPD: nat := 0
  const INFO_MAIL: nat := 1
  const INFO_NETWORK: nat := 2
  const INFO_BATTERY: nat := 3
  const INFO_BRIGHTNESS: nat := 4
  const INFO_AUDIO: nat := 5
  const INFO_WEATHER: nat := 6
  const INFO_CLOCK: nat := 7
  const INFO_ARRAY_SIZE: nat := 8
  /** The last slot of the left-aligned section. */
  const LEFT_ALIGNED: nat := INFO_MPD

  // The slot table of lemonbar-status.c, in enum order.
  const LEGACY_MAIL: nat := 0
  const LEGACY_NETWORK: nat := 1
  const LEGACY_BATTERY: nat := 2
  const LEGACY_BRIGHTNESS: nat := 3
  const LEGACY_AUDIO: nat := 4
  const LEGACY_WEATHER: nat := 5
  const LEGACY_CLOCK: nat := 6
  const LEGACY_INFO_ARRAY_SIZE: nat := 7
  const LEGACY_NORMAL_COLOR: string := "%{F#DDDDDD}"
  const LEGACY_SEPARATOR: string := " | "
  /** The markup that opens every line of lemonbar-status.c. */
  const LEGACY_HEAD: string := "%{F#DDDDDD}%{r}"

  /** The colour markup main.c takes from its colour header. */
  datatype Palette = Palette(normal: string, separator: string)

  /** What main.c prints between two slot texts: a space, a coloured bar, a space. */
  function SeparatorText(pal: Palette): string {
    " " + pal.separator + "|" + pal.normal + " "
  }

  datatype Side = Left | Right
  datatype Piece = Field(text: string) | Sep | Align(side: Side) | End

  function AlignText(side: Side, normal: string): string {
    normal + (if side == Left then "%{l}" else "%{r}")
  }

  function PieceText(p: Piece, normal: string, sep: string): string {
    match p
    case Field(t) => t
    case Sep => sep
    case Align(side) => AlignText(side, normal)
    case End => "\n"
  }

  /** The characters written to standard output for a sequence of pieces. */
  function Render(ps: seq<Piece>, normal: string, sep: string): string {
    if |ps| == 0 then "" else Render(ps[..|ps| - 1], normal, sep) + PieceText(ps[|ps| - 1], normal, sep)
  }

  lemma {:induction false} RenderAppend(a: seq<Piece>, b: seq<Piece>, normal: string, sep: string)
    ensures Render(a + b, normal, sep) == Render(a, normal, sep) + Render(b, normal, sep)
  {
    if |b| > 0 {
      assert (a + b)[..|a + b| - 1] == a + b[..|b| - 1];
      RenderAppend(a, b[..|b| - 1], normal, sep);
    } else {
      assert a + b == a;
    }
  }

  // ---------------------------------------------------------------------
  // The table and its present entries

  /** The texts of the non-absent slots, in slot order. */
  function Present(s: seq<Option<string>>): (r: seq<string>)
    ensures |r| <= |s|
  {
    if |s| == 0 then []
    else Present(s[..|s| - 1]) + (if s[|s| - 1].Some? then [s[|s| - 1].value] else [])
  }

  lemma {:induction false} PresentAppend(a: seq<Option<string>>, b: seq<Option<string>>)
    ensures Present(a + b) == Present(a) + Present(b)
  {
    if |b| > 0 {
      assert (a + b)[..|a + b| - 1] == a + b[..|b| - 1];
      PresentAppend(a, b[..|b| - 1]);
    } else {
      assert a + b == a;
    }
  }

  /** A table has no present entry exactly when every slot is absent. */
  lemma {:induction false} PresentEmpty(s: seq<Option<string>>)
    ensures Present(s) == [] <==> forall k :: 0 <= k < |s| ==> s[k].None?
  {
    if |s| > 0 {
      PresentEmpty(s[..|s| - 1]);
      assert forall k :: 0 <= k < |s| - 1 ==> s[..|s| - 1][k] == s[k];
    }
  }

  /** Absent slots at the front of a window contribute nothing. */
  lemma SkipAbsent(s: seq<Option<string>>, a: nat, b: nat, c: nat)
    requires a <= b <= c <= |s|
    requires forall k :: a <= k < b ==> s[k].None?
    ensures Present(s[a..c]) == Present(s[b..c])
  {
    assert s[a..c] == s[a..b] + s[b..c];
    PresentAppend(s[a..b], s[b..c]);
    PresentEmpty(s[a..b]);
  }

  /** Extending a window by one slot adds that slot's text when it is present. */
  lemma PresentStep(s: seq<Option<string>>, a: nat, i: nat)
    requires a <= i < |s|
    ensures Present(s[a..i + 1]) == Present(s[a..i]) + (if s[i].Some? then [s[i].value] else [])
  {
    assert s[a..i + 1][..i - a] == s[a..i];
  }

  /** The first present slot at or after `from`, or `|s|` when there is none. */
  function FirstPresent(s: seq<Option<string>>, from: nat): (i: nat)
    requires from <= |s|
    ensures from <= i <= |s|
    ensures forall k :: from <= k < i ==> s[k].None?
    ensures i < |s| ==> s[i].Some?
    decreases |s| - from
  {
    if from == |s| || s[from].Some? then from else FirstPresent(s, from + 1)
  }

  // ---------------------------------------------------------------------
  // Pieces of a line

  /** Texts joined by separators: the first alone, every later one after a separator. */
  function Joined(xs: seq<string>): seq<Piece> {
    if |xs| == 0 then []
    else if |xs| == 1 then [Field(xs[0])]
    else Joined(xs[..|xs| - 1]) + [Sep, Field(xs[|xs| - 1])]
  }

  /** The slot texts of a line, in the order they are printed. */
  function Fields(ps: seq<Piece>): seq<string> {
    if |ps| == 0 then []
    else Fields(ps[..|ps| - 1]) + (if ps[|ps| - 1].Field? then [ps[|ps| - 1].text] else [])
  }

  /** The number of separators of a line. */
  function SepCount(ps: seq<Piece>): nat {
    if |ps| == 0 then 0 else SepCount(ps[..|ps| - 1]) + (if ps[|ps| - 1] == Sep then 1 else 0)
  }

  lemma {:induction false} FieldsAppend(a: seq<Piece>, b: seq<Piece>)
    ensures Fields(a + b) == Fields(a) + Fields(b)
    ensures SepCount(a + b) == SepCount(a) + SepCount(b)
  {
    if |b| > 0 {
      assert (a + b)[..|a + b| - 1] == a + b[..|b| - 1];
      FieldsAppend(a, b[..|b| - 1]);
    } else {
      assert a + b == a;
    }
  }

  /** Joining keeps every text, in order, and puts one separator fewer than texts. */
  lemma {:induction false} JoinedShape(xs: seq<string>)
    ensures Fields(Joined(xs)) == xs
    ensures |xs| > 0 ==> SepCount(Joined(xs)) == |xs| - 1
    ensures |xs| > 0 ==> Joined(xs)[0] == Field(xs[0])
    ensures forall side :: Align(side) !in Joined(xs)
    ensures End !in Joined(xs)
  {
    if |xs| > 1 {
      var init := xs[..|xs| - 1];
      JoinedShape(init);
      FieldsAppend(Joined(init), [Sep, Field(xs[|xs| - 1])]);
      assert Fields([Sep, Field(xs[|xs| - 1])]) == [xs[|xs| - 1]] by {
        assert [Sep, Field(xs[|xs| - 1])][..1] == [Sep];
      }
      assert SepCount([Sep, Field(xs[|xs| - 1])]) == 1 by {
        assert [Sep, Field(xs[|xs| - 1])][..1] == [Sep];
      }
      assert init + [xs[|xs| - 1]] == xs;
    } else if |xs| == 1 {
      assert Fields([Field(xs[0])]) == Fields([]) + [xs[0]];
    }
  }

  /** Printing one more text after a non-empty join adds a separator and the text. */
  lemma RenderJoinedStep(xs: seq<string>, x: string, normal: string, sep: string)
    requires |xs| > 0
    ensures Render(Joined(xs + [x]), normal, sep) == Render(Joined(xs), normal, sep) + sep + x
  {
    assert (xs + [x])[..|xs|] == xs;
    assert Joined(xs + [x]) == Joined(xs) + [Sep, Field(x)];
    RenderAppend(Joined(xs), [Sep, Field(x)], normal, sep);
    assert [Sep, Field(x)][..1] == [Sep];
    RenderOne(Sep, normal, sep);
  }

  /** A join of one text prints that text alone. */
  lemma RenderJoinedOne(x: string, normal: string, sep: string)
    ensures Render(Joined([x]), normal, sep) == x
  {
    assert [Field(x)][..0] == [];
  }

  /** One aligned section: its markup, then its texts joined; nothing when it has no text. */
  function Section(side: Side, xs: seq<string>): seq<Piece> {
    if |xs| == 0 then [] else [Align(side)] + Joined(xs)
  }

  lemma SectionShape(side: Side, xs: seq<string>)
    ensures Fields(Section(side, xs)) == xs
    ensures SepCount(Section(side, xs)) == if |xs| == 0 then 0 else |xs| - 1
    ensures Align(side) in Section(side, xs) <==> |xs| > 0
    ensures forall other :: other != side ==> Align(other) !in Section(side, xs)
    ensures End !in Section(side, xs)
  {
    JoinedShape(xs);
    if |xs| > 0 {
      FieldsAppend([Align(side)], Joined(xs));
      assert Fields([Align(side)]) == [] by { assert [Align(side)][..0] == []; }
      assert SepCount([Align(side)]) == 0 by { assert [Align(side)][..0] == []; }
    }
  }

  /**
   * The line main.c prints for table `s` split after slot `cut`: the left section
   * (texts of slots 0..cut), the right section (texts of the later slots), a newline.
   */
  function Layout(s: seq<Option<string>>, cut: nat): seq<Piece>
    requires cut < |s|
  {
    Section(Left, Present(s[..cut + 1])) + Section(Right, Present(s[cut + 1..])) + [End]
  }

  /** The line lemonbar-status.c prints: right-alignment markup, every text, a newline. */
  function LegacyLayout(s: seq<Option<string>>): seq<Piece> {
    [Align(Right)] + Joined(Present(s)) + [End]
  }

  // ---------------------------------------------------------------------
  // The renderers as the C code runs them

  /**
   * main.c `output_elements`: the first present slot in `start..end` is printed
   * alone, each later present slot after a separator.
   */
  method OutputElements(infos: array<Option<string>>, start: nat, end: nat, pal: Palette)
    returns (out: string)
    requires start <= end <= infos.Length
    ensures out == Render(Joined(Present(infos[start..end])), pal.normal, SeparatorText(pal))
  {
    ghost var s := infos[..];
    var sep := SeparatorText(pal);
    out := "";
    var i := start;
    while i < end
      invariant start <= i <= end
      invariant Present(s[start..i]) == []
      invariant out == ""
    {
      PresentStep(s, start, i);
      if infos[i].Some? {
        out := infos[i].value;
        RenderJoinedOne(out, pal.normal, sep);
        i := i + 1;
        break;
      }
      i := i + 1;
    }
    while i < end
      invariant start <= i <= end
      invariant |Present(s[start..i])| >= 1 || i == end
      invariant out == Render(Joined(Present(s[start..i])), pal.normal, sep)
    {
      ghost var before := Present(s[start..i]);
      PresentStep(s, start, i);
      if infos[i].Some? {
        var text := infos[i].value;
        assert Present(s[start..i + 1]) == before + [text];
        RenderJoinedStep(before, text, pal.normal, sep);
        out := out + sep + text;
      } else {
        assert Present(s[start..i + 1]) == before;
      }
      i := i + 1;
    }
    assert s[start..end] == infos[start..end];
  }

  /**
   * main.c `output_status`: the left section when the first present slot is at
   * or before `LEFT_ALIGNED`, then the right section when a later slot is
   * present, then a newline.
   */
  method OutputStatus(infos: array<Option<string>>, pal: Palette) returns (line: string)
    requires infos.Length == INFO_ARRAY_SIZE
    ensures line == Render(Layout(infos[..], LEFT_ALIGNED), pal.normal, SeparatorText(pal))
  {
    ghost var s := infos[..];
    ghost var sep := SeparatorText(pal);
    var left, i := OutputLeft(infos, pal);
    var right := OutputRight(infos, i, pal);
    line := left + right + "\n";
    LayoutText(s, LEFT_ALIGNED, pal.normal, sep);
  }

  /**
   * The left half of `output_status`: skip absent slots, then print the left
   * section when a slot up to the cut holds text. The cursor it leaves has
   * passed the cut and only absent slots.
   */
  method OutputLeft(infos: array<Option<string>>, pal: Palette) returns (line: string, i: nat)
    requires infos.Length == INFO_ARRAY_SIZE
    ensures line == Render(Section(Left, Present(infos[..LEFT_ALIGNED + 1])), pal.normal, SeparatorText(pal))
    ensures LEFT_ALIGNED + 1 <= i <= INFO_ARRAY_SIZE
    ensures forall k :: LEFT_ALIGNED + 1 <= k < i ==> infos[k].None?
  {
    ghost var s := infos[..];
    ghost var sep := SeparatorText(pal);
    ghost var leftTexts := Present(s[..LEFT_ALIGNED + 1]);
    i := 0;
    while i < INFO_ARRAY_SIZE && infos[i].None?
      invariant 0 <= i <= INFO_ARRAY_SIZE
      invariant forall k :: 0 <= k < i ==> infos[k].None?
    {
      i := i + 1;
    }
    SectionText(Left, leftTexts, pal.normal, sep);
    if i <= LEFT_ALIGNED {
      var left := OutputElements(infos, i, LEFT_ALIGNED + 1, pal);
      assert infos[i..LEFT_ALIGNED + 1] == s[..LEFT_ALIGNED + 1];
      assert leftTexts != [] by { PresentEmpty(s[..LEFT_ALIGNED + 1]); assert s[..LEFT_ALIGNED + 1][i] == s[i]; }
      line := AlignText(Left, pal.normal) + left;
      // The source steps the cursor once past the first element; with the cut
      // at slot 0 that is the slot after the cut.
      i := LEFT_ALIGNED + 1;
    } else {
      assert leftTexts == [] by { PresentEmpty(s[..LEFT_ALIGNED + 1]); }
      line := "";
    }
  }

  /** The right half of `output_status`: skip absent slots, then print the right section if any text remains. */
  method OutputRight(infos: array<Option<string>>, i0: nat, pal: Palette) returns (line: string)
    requires infos.Length == INFO_ARRAY_SIZE
    requires LEFT_ALIGNED + 1 <= i0 <= INFO_ARRAY_SIZE
    requires forall k :: LEFT_ALIGNED + 1 <= k < i0 ==> infos[k].None?
    ensures line == Render(Section(Right, Present(infos[LEFT_ALIGNED + 1..])), pal.normal, SeparatorText(pal))
  {
    ghost var s := infos[..];
    ghost var sep := SeparatorText(pal);
    ghost var rightTexts := Present(s[LEFT_ALIGNED + 1..]);
    var i := i0;
    while i < INFO_ARRAY_SIZE && infos[i].None?
      invariant LEFT_ALIGNED + 1 <= i <= INFO_ARRAY_SIZE
      invariant forall k :: LEFT_ALIGNED + 1 <= k < i ==> infos[k].None?
    {
      i := i + 1;
    }
    assert s[LEFT_ALIGNED + 1..INFO_ARRAY_SIZE] == s[LEFT_ALIGNED + 1..];
    SkipAbsent(s, LEFT_ALIGNED + 1, i, INFO_ARRAY_SIZE);
    SectionText(Right, rightTexts, pal.normal, sep);
    if i < INFO_ARRAY_SIZE {
      var right := OutputElements(infos, i, INFO_ARRAY_SIZE, pal);
      assert infos[i..INFO_ARRAY_SIZE] == s[i..INFO_ARRAY_SIZE];
      assert rightTexts != [] by { PresentEmpty(s[i..INFO_ARRAY_SIZE]); assert s[i..INFO_ARRAY_SIZE][0] == s[i]; }
      line := AlignText(Right, pal.normal) + right;
    } else {
      assert rightTexts == [] by { assert s[i..INFO_ARRAY_SIZE] == []; }
      line := "";
    }
  }

  /** The characters of a section: its markup, then its joined texts. */
  lemma SectionText(side: Side, xs: seq<string>, normal: string, sep: string)
    ensures Render(Section(side, xs), normal, sep)
      == if |xs| == 0 then "" else AlignText(side, normal) + Render(Joined(xs), normal, sep)
  {
    if |xs| > 0 {
      RenderAppend([Align(side)], Joined(xs), normal, sep);
      RenderOne(Align(side), normal, sep);
    }
  }

  /** The characters of a main.c line: left section, right section, newline. */
  lemma LayoutText(s: seq<Option<string>>, cut: nat, normal: string, sep: string)
    requires cut < |s|
    ensures Render(Layout(s, cut), normal, sep)
      == Render(Section(Left, Present(s[..cut + 1])), normal, sep)
       + Render(Section(Right, Present(s[cut + 1..])), normal, sep) + "\n"
  {
    var l := Section(Left, Present(s[..cut + 1]));
    var r := Section(Right, Present(s[cut + 1..]));
    RenderAppend(l, r, normal, sep);
    RenderAppend(l + r, [End], normal, sep);
    RenderOne(End, normal, sep);
  }

  lemma RenderOne(p: Piece, normal: string, sep: string)
    ensures Render([p], normal, sep) == PieceText(p, normal, sep)
  {
    assert [p][..0] == [];
  }

  /**
   * lemonbar-status.c `output_status`: right-alignment markup, the first present
   * slot alone, each later present slot after `" | "`, then a newline.
   */
  method LegacyOutputStatus(infos: array<Option<string>>) returns (line: string)
    requires infos.Length == LEGACY_INFO_ARRAY_SIZE
    ensures line == Render(LegacyLayout(infos[..]), LEGACY_NORMAL_COLOR, LEGACY_SEPARATOR)
  {
    var body := LegacyElements(infos);
    line := AlignText(Right, LEGACY_NORMAL_COLOR) + body + "\n";
    LegacyRender(infos[..]);
  }

  /** The two loops of lemonbar-status.c `output_status`: every present slot, joined by `" | "`. */
  method LegacyElements(infos: array<Option<string>>) returns (body: string)
    requires infos.Length == LEGACY_INFO_ARRAY_SIZE
    ensures body == Render(Joined(Present(infos[..])), LEGACY_NORMAL_COLOR, LEGACY_SEPARATOR)
  {
    var first, i := LegacyFirstElement(infos);
    body := LegacyLaterElements(infos, i, first);
  }

  /**
   * The first loop: the first present slot, printed alone. It returns the
   * slot after it, or the table size when every slot is absent.
   */
  method LegacyFirstElement(infos: array<Option<string>>) returns (body: string, i: nat)
    requires infos.Length == LEGACY_INFO_ARRAY_SIZE
    ensures i <= LEGACY_INFO_ARRAY_SIZE
    ensures |Present(infos[..][0..i])| >= 1 || i == LEGACY_INFO_ARRAY_SIZE
    ensures body == Render(Joined(Present(infos[..][0..i])), LEGACY_NORMAL_COLOR, LEGACY_SEPARATOR)
  {
    ghost var s := infos[..];
    body := "";
    i := 0;
    while i < LEGACY_INFO_ARRAY_SIZE
      invariant 0 <= i <= LEGACY_INFO_ARRAY_SIZE
      invariant Present(s[0..i]) == []
    {
      PresentStep(s, 0, i);
      if infos[i].Some? {
        body := infos[i].value;
        RenderJoinedOne(body, LEGACY_NORMAL_COLOR, LEGACY_SEPARATOR);
        i := i + 1;
        return;
      }
      i := i + 1;
    }
  }

  /** The second loop: each later present slot after `" | "`. */
  method LegacyLaterElements(infos: array<Option<string>>, i0: nat, body0: string) returns (body: string)
    requires infos.Length == LEGACY_INFO_ARRAY_SIZE && i0 <= LEGACY_INFO_ARRAY_SIZE
    requires |Present(infos[..][0..i0])| >= 1 || i0 == LEGACY_INFO_ARRAY_SIZE
    requires body0 == Render(Joined(Present(infos[..][0..i0])), LEGACY_NORMAL_COLOR, LEGACY_SEPARATOR)
    ensures body == Render(Joined(Present(infos[..])), LEGACY_NORMAL_COLOR, LEGACY_SEPARATOR)
  {
    ghost var s := infos[..];
    body := body0;
    var i := i0;
    while i < LEGACY_INFO_ARRAY_SIZE
      invariant i0 <= i <= LEGACY_INFO_ARRAY_SIZE
      invariant |Present(s[0..i])| >= 1 || i == LEGACY_INFO_ARRAY_SIZE
      invariant body == Render(Joined(Present(s[0..i])), LEGACY_NORMAL_COLOR, LEGACY_SEPARATOR)
    {
      JoinedStep(s, i, body, LEGACY_NORMAL_COLOR, LEGACY_SEPARATOR);
      if infos[i].Some? {
        body := body + LEGACY_SEPARATOR + infos[i].value;
      }
      i := i + 1;
    }
    assert s[0..LEGACY_INFO_ARRAY_SIZE] == s;
  }

  /** One more slot after a non-empty join: its text after a separator when it is present. */
  lemma JoinedStep(s: seq<Option<string>>, i: nat, body: string, normal: string, sep: string)
    requires i < |s| && |Present(s[0..i])| >= 1
    requires body == Render(Joined(Present(s[0..i])), normal, sep)
    ensures |Present(s[0..i + 1])| >= 1
    ensures Render(Joined(Present(s[0..i + 1])), normal, sep)
      == if s[i].Some? then body + sep + s[i].value else body
  {
    PresentStep(s, 0, i);
    if s[i].Some? {
      assert Present(s[0..i + 1]) == Present(s[0..i]) + [s[i].value];
      RenderJoinedStep(Present(s[0..i]), s[i].value, normal, sep);
    } else {
      assert Present(s[0..i + 1]) == Present(s[0..i]);
    }
  }

  /** The characters of the legacy line: markup, the joined texts, a newline. */
  lemma LegacyRender(s: seq<Option<string>>)
    ensures Render(LegacyLayout(s), LEGACY_NORMAL_COLOR, LEGACY_SEPARATOR)
      == AlignText(Right, LEGACY_NORMAL_COLOR) + Render(Joined(Present(s)), LEGACY_NORMAL_COLOR, LEGACY_SEPARATOR) + "\n"
  {
    var normal, sep := LEGACY_NORMAL_COLOR, LEGACY_SEPARATOR;
    var body := Joined(Present(s));
    RenderAppend([Align(Right)], body, normal, sep);
    RenderAppend([Align(Right)] + body, [End], normal, sep);
    RenderOne(Align(Right), normal, sep);
    RenderOne(End, normal, sep);
  }

  // ---------------------------------------------------------------------
  // What the printed line promises

  /** Every present slot is printed exactly once, in slot order, whatever the cut. */
  lemma LayoutFields(s: seq<Option<string>>, cut: nat)
    requires cut < |s|
    ensures Fields(Layout(s, cut)) == Present(s)
  {
    var left, right := Present(s[..cut + 1]), Present(s[cut + 1..]);
    SectionShape(Left, left);
    SectionShape(Right, right);
    LineParts(Section(Left, left), Section(Right, right));
    PresentSplit(s, cut);
  }

  /** Each non-empty section has one separator fewer than texts. */
  lemma LayoutSeparators(s: seq<Option<string>>, cut: nat)
    requires cut < |s|
    ensures SepCount(Layout(s, cut)) + SectionCount(s, cut) == |Present(s)|
  {
    var left, right := Present(s[..cut + 1]), Present(s[cut + 1..]);
    SectionShape(Left, left);
    SectionShape(Right, right);
    LineParts(Section(Left, left), Section(Right, right));
    PresentSplit(s, cut);
  }

  /** The texts and separators of a two-section line are those of its sections. */
  lemma LineParts(l: seq<Piece>, r: seq<Piece>)
    ensures Fields(l + r + [End]) == Fields(l) + Fields(r)
    ensures SepCount(l + r + [End]) == SepCount(l) + SepCount(r)
  {
    FieldsAppend(l, r);
    FieldsAppend(l + r, [End]);
    assert Fields([End]) == [] && SepCount([End]) == 0 by { assert [End][..0] == []; }
  }

  /** The texts of a table are those up to the cut, then those after it. */
  lemma PresentSplit(s: seq<Option<string>>, cut: nat)
    requires cut < |s|
    ensures Present(s) == Present(s[..cut + 1]) + Present(s[cut + 1..])
  {
    PresentOfJoin(s[..cut + 1], s[cut + 1..], s);
  }

  lemma PresentOfJoin(a: seq<Option<string>>, b: seq<Option<string>>, s: seq<Option<string>>)
    requires a + b == s
    ensures Present(s) == Present(a) + Present(b)
  {
    PresentAppend(a, b);
  }

  /** How many of the two sections a table fills. */
  function SectionCount(s: seq<Option<string>>, cut: nat): nat
    requires cut < |s|
  {
    (if Present(s[..cut + 1]) == [] then 0 else 1) + (if Present(s[cut + 1..]) == [] then 0 else 1)
  }

  /** An all-absent table prints a bare newline, without any markup. */
  lemma AllAbsentLine(s: seq<Option<string>>, cut: nat, normal: string, sep: string)
    requires cut < |s|
    requires forall k :: 0 <= k < |s| ==> s[k].None?
    ensures Render(Layout(s, cut), normal, sep) == "\n"
  {
    PresentEmpty(s[..cut + 1]);
    PresentEmpty(s[cut + 1..]);
    assert Layout(s, cut) == [End];
    assert [End][..0] == [];
  }

  /** A piece occurs in a three-part line exactly when it occurs in one of the parts. */
  lemma InThree(a: seq<Piece>, b: seq<Piece>, c: seq<Piece>, p: Piece)
    ensures p in a + b + c <==> p in a || p in b || p in c
  {
  }

  /** The left section appears exactly when some slot up to the cut is present. */
  lemma LeftSectionIff(s: seq<Option<string>>, cut: nat)
    requires cut < |s|
    ensures Align(Left) in Layout(s, cut) <==> exists k :: 0 <= k <= cut && s[k].Some?
  {
    var left := s[..cut + 1];
    SectionShape(Left, Present(left));
    SectionShape(Right, Present(s[cut + 1..]));
    InThree(Section(Left, Present(left)), Section(Right, Present(s[cut + 1..])), [End], Align(Left));
    assert Align(Left) !in [End];
    assert Align(Left) in Layout(s, cut) <==> Present(left) != [];
    PresentEmpty(left);
    if exists k :: 0 <= k <= cut && s[k].Some? {
      var k :| 0 <= k <= cut && s[k].Some?;
      assert left[k] == s[k];
    } else {
      forall j | 0 <= j < |left|
        ensures left[j].None?
      {
        assert left[j] == s[j];
      }
    }
  }

  /** The right section appears exactly when some slot after the cut is present. */
  lemma RightSectionIff(s: seq<Option<string>>, cut: nat)
    requires cut < |s|
    ensures Align(Right) in Layout(s, cut) <==> exists k :: cut < k < |s| && s[k].Some?
  {
    var right := s[cut + 1..];
    SectionShape(Left, Present(s[..cut + 1]));
    SectionShape(Right, Present(right));
    InThree(Section(Left, Present(s[..cut + 1])), Section(Right, Present(right)), [End], Align(Right));
    assert Align(Right) !in [End];
    assert Align(Right) in Layout(s, cut) <==> Present(right) != [];
    PresentEmpty(right);
    if exists k :: cut < k < |s| && s[k].Some? {
      var k :| cut < k < |s| && s[k].Some?;
      assert right[k - cut - 1] == s[k];
    } else {
      forall j | 0 <= j < |right|
        ensures right[j].None?
      {
        assert right[j] == s[j + cut + 1];
      }
    }
  }

  /**
   * With the cut at the MPD slot, the left section holds the MPD text and nothing
   * else: it is followed directly by the right markup or the newline.
   */
  lemma LeftHoldsOnlyMpd(s: seq<Option<string>>)
    requires |s| == INFO_ARRAY_SIZE && s[INFO_MPD].Some?
    ensures |Layout(s, LEFT_ALIGNED)| >= 3
    ensures Layout(s, LEFT_ALIGNED)[..2] == [Align(Left), Field(s[INFO_MPD].value)]
    ensures Layout(s, LEFT_ALIGNED)[2] in {Align(Right), End}
  {
    var v := s[INFO_MPD].value;
    assert s[..1] == [s[0]];
    assert Present([s[0]]) == [v] by { assert [s[0]][..0] == []; }
    var rest := Section(Right, Present(s[1..])) + [End];
    assert Layout(s, LEFT_ALIGNED) == [Align(Left), Field(v)] + rest;
    if |Present(s[1..])| > 0 {
      JoinedShape(Present(s[1..]));
      assert rest[0] == Align(Right);
    } else {
      assert rest == [End];
    }
  }

  /** lemonbar-status.c always opens with the right-alignment markup and ends with a newline. */
  lemma LegacyLineFrame(s: seq<Option<string>>)
    ensures |Render(LegacyLayout(s), LEGACY_NORMAL_COLOR, LEGACY_SEPARATOR)| > |LEGACY_HEAD|
    ensures Render(LegacyLayout(s), LEGACY_NORMAL_COLOR, LEGACY_SEPARATOR)[..|LEGACY_HEAD|] == LEGACY_HEAD
    ensures Render(LegacyLayout(s), LEGACY_NORMAL_COLOR, LEGACY_SEPARATOR)[|Render(LegacyLayout(s), LEGACY_NORMAL_COLOR, LEGACY_SEPARATOR)| - 1] == '\n'
    ensures (forall k :: 0 <= k < |s| ==> s[k].None?) ==>
      Render(LegacyLayout(s), LEGACY_NORMAL_COLOR, LEGACY_SEPARATOR) == LEGACY_HEAD + "\n"
  {
    var tail := Render(Joined(Present(s)), LEGACY_NORMAL_COLOR, LEGACY_SEPARATOR) + "\n";
    LegacyLineSplit(s);
    FrameOf(LEGACY_HEAD, tail);
    if forall k :: 0 <= k < |s| ==> s[k].None? {
      assert tail == "\n" by { PresentEmpty(s); }
    }
  }

  lemma LegacyLineSplit(s: seq<Option<string>>)
    ensures Render(LegacyLayout(s), LEGACY_NORMAL_COLOR, LEGACY_SEPARATOR)
      == LEGACY_HEAD + (Render(Joined(Present(s)), LEGACY_NORMAL_COLOR, LEGACY_SEPARATOR) + "\n")
  {
    LegacyRender(s);
    assert AlignText(Right, LEGACY_NORMAL_COLOR) == LEGACY_HEAD;
  }

  /** A text made of a head and a non-empty tail starts with the head and ends with the tail's last character. */
  lemma FrameOf(head: string, tail: string)
    requires |tail| > 0
    ensures (head + tail)[..|head|] == head
    ensures (head + tail)[|head + tail| - 1] == tail[|tail| - 1]
  {
  }

  /** lemonbar-status.c prints every present slot once, in order, one separator between neighbours. */
  lemma LegacyFields(s: seq<Option<string>>)
    ensures Fields(LegacyLayout(s)) == Present(s)
    ensures |Present(s)| > 0 ==> SepCount(LegacyLayout(s)) == |Present(s)| - 1
  {
    JoinedShape(Present(s));
    FieldsAppend([Align(Right)], Joined(Present(s)));
    FieldsAppend([Align(Right)] + Joined(Present(s)), [End]);
    assert [Align(Right)][..0] == [];
    assert [End][..0] == [];
  }

  // ---------------------------------------------------------------------
  // The cursor of main.c `output_status` for an arbitrary cut

  /**
   * main.c `output_status` as written, for any value of the cut: after the left
   * section the cursor steps only once past the FIRST present slot, and the
   * search for the right section starts there.
   */
  function CursorLayout(s: seq<Option<string>>, cut: nat): seq<Piece>
    requires cut < |s|
  {
    var i := FirstPresent(s, 0);
    if i <= cut then
      var j := FirstPresent(s, i + 1);
      [Align(Left)] + Joined(Present(s[i..cut + 1])) + Section(Right, Present(s[j..])) + [End]
    else
      Section(Right, Present(s[i..])) + [End]
  }

  /** At the shipped cut (the MPD slot) the cursor lands right after the cut. */
  lemma CursorAtShippedCut(s: seq<Option<string>>)
    requires |s| == INFO_ARRAY_SIZE
    ensures CursorLayout(s, LEFT_ALIGNED) == Layout(s, LEFT_ALIGNED)
  {
    if FirstPresent(s, 0) <= LEFT_ALIGNED {
      CursorMpdPresent(s);
    } else {
      CursorMpdAbsent(s);
    }
  }

  /** With the MPD slot filled, the right section starts at the first present slot after it. */
  lemma CursorMpdPresent(s: seq<Option<string>>)
    requires |s| == INFO_ARRAY_SIZE && FirstPresent(s, 0) <= LEFT_ALIGNED
    ensures Present(s[FirstPresent(s, 1)..]) == Present(s[LEFT_ALIGNED + 1..])
    ensures Present(s[FirstPresent(s, 0)..LEFT_ALIGNED + 1]) == Present(s[..LEFT_ALIGNED + 1])
  {
    SkipToFirst(s, 1);
    assert s[0..1] == s[..1];
  }

  /** With the MPD slot empty, the whole line is the right section. */
  lemma CursorMpdAbsent(s: seq<Option<string>>)
    requires |s| == INFO_ARRAY_SIZE && FirstPresent(s, 0) > LEFT_ALIGNED
    ensures Present(s[..LEFT_ALIGNED + 1]) == []
    ensures Present(s[FirstPresent(s, 0)..]) == Present(s[LEFT_ALIGNED + 1..])
  {
    assert FirstPresent(s, 0) == FirstPresent(s, 1);
    SkipToFirst(s, 1);
    PresentStep(s, 0, 0);
    assert s[0..1] == s[..1] && s[0..0] == [];
  }

  /** The slots before the first present one contribute nothing. */
  lemma SkipToFirst(s: seq<Option<string>>, from: nat)
    requires from <= |s|
    ensures Present(s[FirstPresent(s, from)..]) == Present(s[from..])
  {
    var j := FirstPresent(s, from);
    SkipAbsent(s, from, j, |s|);
    assert s[from..|s|] == s[from..] && s[j..|s|] == s[j..];
  }

  /** The example table of the lemma below: MPD and mail present, every other slot absent. */
  predicate TwoInFront(s: seq<Option<string>>, a: string, b: string) {
    |s| == INFO_ARRAY_SIZE && s[0] == Some(a) && s[1] == Some(b)
    && forall k :: 2 <= k < |s| ==> s[k].None?
  }

  lemma ExampleTable(s: seq<Option<string>>, a: string, b: string)
    requires TwoInFront(s, a, b)
    ensures FirstPresent(s, 0) == 0 && FirstPresent(s, 1) == 1
    ensures Present(s[0..2]) == [a, b]
    ensures Present(s[1..]) == [b] && Present(s[2..]) == []
  {
    PresentStep(s, 0, 0);
    PresentStep(s, 0, 1);
    assert s[0..0] == [];
    PresentEmpty(s[2..]);
    assert forall j :: 0 <= j < |s[2..]| ==> s[2..][j] == s[j + 2];
    assert s[1..] == s[1..2] + s[2..];
    PresentAppend(s[1..2], s[2..]);
    PresentStep(s, 1, 1);
    assert s[1..1] == [];
  }

  /** The cursor as written at a cut after the mail slot, on the example table. */
  lemma CursorExample(s: seq<Option<string>>, a: string, b: string)
    requires TwoInFront(s, a, b)
    ensures CursorLayout(s, INFO_MAIL) == [Align(Left)] + Joined([a, b]) + Section(Right, [b]) + [End]
  {
    ExampleTable(s, a, b);
    assert s[0..INFO_MAIL + 1] == s[0..2];
  }

  /** With the cut moved to the mail slot, a table holding `a, b` prints `b` twice. */
  lemma CursorRepeatsAfterWiderCut(s: seq<Option<string>>, a: string, b: string)
    requires TwoInFront(s, a, b)
    ensures Fields(CursorLayout(s, INFO_MAIL)) == [a, b, b]
    ensures Fields(Layout(s, INFO_MAIL)) == [a, b]
  {
    CursorExample(s, a, b);
    CursorExampleFields(a, b);
    ExampleLayoutFields(s, a, b);
  }

  /** The texts of the line the cursor as written produces on the example table. */
  lemma CursorExampleFields(a: string, b: string)
    ensures Fields([Align(Left)] + Joined([a, b]) + Section(Right, [b]) + [End]) == [a, b, b]
  {
    var left := [Align(Left)] + Joined([a, b]);
    JoinedShape([a, b]);
    SectionShape(Right, [b]);
    FieldsAppend([Align(Left)], Joined([a, b]));
    assert Fields([Align(Left)]) == [] by { assert [Align(Left)][..0] == []; }
    LineParts(left, Section(Right, [b]));
  }

  /** The intended layout prints the example table's two texts once each. */
  lemma ExampleLayoutFields(s: seq<Option<string>>, a: string, b: string)
    requires TwoInFront(s, a, b)
    ensures Fields(Layout(s, INFO_MAIL)) == [a, b]
  {
    LayoutFields(s, INFO_MAIL);
    ExampleTable(s, a, b);
    PresentOfJoin(s[0..2], s[2..], s);
  }
}
