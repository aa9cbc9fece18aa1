// pages/index.tsx: the home page's rendering of an interpretation. The text is
// cut at every "**"; each non-empty piece is cut into lines; a piece whose first
// line is non-empty and which has at least one more line is shown as a section
// titled by that first line (less a leading "1. "-style number), with one item per
// non-blank further line: a bullet when the trimmed line starts with '-', a
// paragraph otherwise. Also the dream input's limits and the logout state reset.

module Sections {
  import opened Text
  import InterpretApi

  datatype Item = Bullet(text: string) | Paragraph(text: string)

  datatype Section = Section(title: string, items: seq<Item>)

  // ---------------------------------------------------------------------------
  // Pieces and lines

  /** `filter(Boolean)` on strings: the non-empty ones, in order. */
  function NonEmpty(ps: seq<string>): (r: seq<string>)
    ensures |r| <= |ps|
    ensures forall p :: p in r <==> p in ps && p != []
  {
    if ps == [] then []
    else (if ps[0] != [] then [ps[0]] else []) + NonEmpty(ps[1..])
  }

  /** `interpretation.split('**').filter(Boolean)`. */
  function Pieces(text: string): (r: seq<string>)
    ensures forall p :: p in r ==> p != [] && !Contains(p, "**")
  {
    SplitJoin(text, "**");
    NonEmpty(Split(text, "**"))
  }

  // ---------------------------------------------------------------------------
  // Titles

  predicate IsDigit(c: char)
  {
    '0' <= c <= '9'
  }

  /** The first index at or after `k` that does not hold an ASCII digit (`\d`
      without the `u` flag). */
  function SkipDigits(t: string, k: nat): (n: nat)
    requires k <= |t|
    ensures k <= n <= |t|
    ensures forall i :: k <= i < n ==> IsDigit(t[i])
    ensures n < |t| ==> !IsDigit(t[n])
    decreases |t| - k
  {
    if k < |t| && IsDigit(t[k]) then SkipDigits(t, k + 1) else k
  }

  /** `title.replace(/^\d+\.\s*\/, '')`: one leading run of digits with its dot
      and the whitespace after it is removed; any other title is kept. */
  function StripNumbering(t: string): (r: string)
    ensures |r| <= |t| && r == t[|t| - |r|..]
  {
    var n := SkipDigits(t, 0);
    if 0 < n < |t| && t[n] == '.' then t[SkipSpace(t, n + 1)..] else t
  }

  predicate AllDigits(d: string)
  {
    forall i :: 0 <= i < |d| ==> IsDigit(d[i])
  }

  /** A numbered title loses exactly its number, dot and following whitespace. */
  lemma StripNumberingOfNumbered(d: string, w: string, rest: string)
    requires d != [] && AllDigits(d) && AllSpace(w)
    requires rest == [] || !IsSpace(rest[0])
    ensures StripNumbering(d + "." + w + rest) == rest
  {
    var t := d + "." + w + rest;
    assert forall i :: 0 <= i < |d| ==> t[i] == d[i];
    assert t[|d|] == '.';
    SkipDigitsAt(t, 0, |d|);
    assert forall i :: |d| + 1 <= i < |d| + 1 + |w| ==> t[i] == w[i - |d| - 1];
    if rest != [] {
      assert t[|d| + 1 + |w|] == rest[0];
    }
    SkipSpaceAt(t, |d| + 1, |d| + 1 + |w|);
    assert t[|d| + 1 + |w|..] == rest;
  }

  /** A title that does not start with a digit is kept whole. */
  lemma StripNumberingOfUnnumbered(t: string)
    requires t == [] || !IsDigit(t[0])
    ensures StripNumbering(t) == t
  {
  }

  lemma {:induction false} SkipDigitsAt(t: string, k: nat, n: nat)
    requires k <= n <= |t|
    requires forall i :: k <= i < n ==> IsDigit(t[i])
    requires n < |t| ==> !IsDigit(t[n])
    ensures SkipDigits(t, k) == n
    decreases n - k
  {
    if k < n {
      SkipDigitsAt(t, k + 1, n);
    }
  }

  // ---------------------------------------------------------------------------
  // Items

  /** One content line: a bullet, with the first '-' of the raw line removed
      and the rest trimmed, when the trimmed line starts with '-'; otherwise a
      paragraph holding the trimmed line. */
  function ToItem(line: string): (r: Item)
    ensures r.Bullet? <==> StartsWith(Trim(line), "-")
    ensures Trimmed(r.text)
    ensures r.Paragraph? ==> r.text == Trim(line)
  {
    var t := Trim(line);
    if StartsWith(t, "-") then Bullet(Trim(ReplaceFirst(line, "-", ""))) else Paragraph(t)
  }

  /** A bullet's text is the trimmed line without its leading '-', trimmed again:
      removing the first '-' of the raw line removes exactly that one. */
  lemma BulletText(line: string)
    requires StartsWith(Trim(line), "-")
    ensures ToItem(line) == Bullet(Trim(Trim(line)[1..]))
  {
    var lo, hi := TrimLo(line), TrimHi(line);
    FirstDash(line);
    TrimSides(line);
    var mid := line[lo + 1..hi];
    assert Trim(line)[1..] == mid;
    DropOne(line, lo, hi);
    TrimAround(line[..lo], mid, line[hi..]);
  }

  /** Removing the character at `lo` leaves what is before it, then the rest up
      to `hi`, then what follows. */
  lemma DropOne(s: string, lo: nat, hi: nat)
    requires lo < hi <= |s|
    ensures s[..lo] + "" + s[lo + 1..] == s[..lo] + s[lo + 1..hi] + s[hi..]
  {
    assert s[lo + 1..] == s[lo + 1..hi] + s[hi..];
  }

  /** The first '-' of a line whose trimmed form starts with '-' is that one. */
  lemma FirstDash(line: string)
    requires StartsWith(Trim(line), "-")
    ensures IndexOf(line, "-") == Some(TrimLo(line))
  {
    var lo, hi := TrimLo(line), TrimHi(line);
    assert Trim(line)[..1] == line[lo..lo + 1];
    assert OccursAt(line, "-", lo);
    forall j: nat | j < lo ensures !OccursAt(line, "-", j) {
      assert IsSpace(line[j]);
      assert line[j..j + 1][0] == line[j];
    }
    IndexOfIs(line, "-", lo);
  }

  /** The item of one content line, or none for a blank line. */
  function ItemOf(line: string): seq<Item>
  {
    if Trim(line) != [] then [ToItem(line)] else []
  }

  /** `content.filter(line => line.trim()).map(...)`: one item per line that is
      not blank, in order. */
  function Items(lines: seq<string>): (r: seq<Item>)
    ensures |r| <= |lines|
    ensures forall it :: it in r ==> Trimmed(it.text) && (it.Paragraph? ==> it.text != [])
  {
    if lines == [] then [] else ItemOf(lines[0]) + Items(lines[1..])
  }

  /** Items are exactly the non-blank lines: the count of items is the count of
      lines that `trim` does not empty. */
  lemma {:induction false} ItemsCount(lines: seq<string>)
    ensures |Items(lines)| == CountNonBlank(lines)
  {
    if lines != [] {
      ItemsCount(lines[1..]);
    }
  }

  function CountNonBlank(lines: seq<string>): nat
  {
    if lines == [] then 0 else (if Trim(lines[0]) != [] then 1 else 0) + CountNonBlank(lines[1..])
  }

  // ---------------------------------------------------------------------------
  // Sections

  /** `const [title, ...content] = section.split('\n')` and the test
      `title && content.length > 0`. */
  function ParseSection(piece: string): (r: Option<Section>)
    ensures r.Some? <==> Split(piece, "\n")[0] != [] && |Split(piece, "\n")| > 1
    ensures r.Some? ==> r.value.title == StripNumbering(Split(piece, "\n")[0])
                        && |r.value.items| < |Split(piece, "\n")|
  {
    var lines := Split(piece, "\n");
    if lines[0] != [] && |lines| > 1 then Some(Section(StripNumbering(lines[0]), Items(lines[1..]))) else None
  }

  /** The shown sections of a list of pieces, in order. */
  function Shown(pieces: seq<string>): (r: seq<Section>)
    ensures |r| <= |pieces|
  {
    if pieces == [] then []
    else (match ParseSection(pieces[0]) case Some(s) => [s] case None => []) + Shown(pieces[1..])
  }

  /** Everything the page shows for an interpretation. */
  function ParseInterpretation(text: string): seq<Section>
  {
    Shown(Pieces(text))
  }

  /** A heading with nothing but a blank line under it is still shown, with no
      items; a heading with no line break after it is not. */
  lemma SectionNeedsALineBreak(title: string, blank: string)
    requires title != [] && !Contains(title, "\n") && AllSpace(blank) && !Contains(blank, "\n")
    ensures ParseSection(title + "\n" + blank) == Some(Section(StripNumbering(title), []))
    ensures ParseSection(title) == None
  {
    var p := title + "\n" + blank;
    SplitWithoutSeparator(title, "\n");
    assert OccursAt(p, "\n", |title|);
    forall j: nat | j < |title| ensures !OccursAt(p, "\n", j) {
      assert !OccursAt(title, "\n", j);
      assert p[j..j + 1] == title[j..j + 1];
    }
    IndexOfIs(p, "\n", |title|);
    assert p[..|title|] == title;
    assert p[|title| + 1..] == blank;
    SplitWithoutSeparator(blank, "\n");
    assert Split(p, "\n") == [title, blank];
    assert Items([blank]) == [] by {
      assert Trim(blank) == [];
    }
  }

  /** Cutting at "**" where the text has no other '*': the part before the first
      "**" and the splits of the rest. */
  lemma SplitAtStars(a: string, b: string)
    requires NoStar(a)
    ensures Split(a + "**" + b, "**") == [a] + Split(b, "**")
  {
    var s := a + "**" + b;
    assert s[|a|..|a| + 2] == "**";
    assert OccursAt(s, "**", |a|);
    forall j: nat | j < |a| ensures !OccursAt(s, "**", j) {
      assert s[j..j + 2][0] == s[j] == a[j] != '*';
    }
    IndexOfIs(s, "**", |a|);
    assert s[..|a|] == a;
    assert s[|a| + 2..] == b;
  }

  predicate NoStar(s: string)
  {
    forall i :: 0 <= i < |s| ==> s[i] != '*'
  }

  /** A text laid out the way the interpretation prompt asks, a bold heading
      followed by a line break and its content, shows nothing: the heading is a
      piece with no second line, and the content is a piece whose first line is
      empty. */
  lemma BoldHeadingShowsNothing(title: string, body: string)
    requires title != [] && NoStar(title) && NoStar(body)
    requires forall i :: 0 <= i < |title| ==> title[i] != '\n'
    requires body != [] && body[0] == '\n'
    ensures ParseInterpretation("**" + title + "**" + body) == []
  {
    HeadingPieces(title, body);
    SingleLine(title);
    assert OccursAt(body, "\n", 0);
    IndexOfIs(body, "\n", 0);
    assert Split(body, "\n")[0] == [];
    assert [title, body][1..] == [body];
    assert ParseSection(title) == None;
    assert ParseSection(body) == None;
    assert [body][1..] == [];
    assert Shown([body]) == [];
    assert Shown([title, body]) == [];
  }

  lemma HeadingPieces(title: string, body: string)
    requires title != [] && NoStar(title) && NoStar(body) && body != []
    ensures Pieces("**" + title + "**" + body) == [title, body]
  {
    HeadingSplit(title, body);
    var ps := ["", title, body];
    assert ps[1..] == [title, body];
    assert ps[1..][1..] == [body];
    assert NonEmpty(ps) == NonEmpty(ps[1..]);
  }

  lemma HeadingSplit(title: string, body: string)
    requires NoStar(title) && NoStar(body)
    ensures Split("**" + title + "**" + body, "**") == ["", title, body]
  {
    var rest := title + "**" + body;
    HeadingText(title, body);
    SplitAtStars([], rest);
    SplitAtStars(title, body);
    NoStarSplit(body);
    ThreePieces(title, body);
  }

  lemma HeadingText(title: string, body: string)
    ensures "**" + title + "**" + body == [] + "**" + (title + "**" + body)
  {
  }

  lemma ThreePieces(title: string, body: string)
    ensures [[]] + ([title] + [body]) == ["", title, body]
  {
  }

  lemma NoStarSplit(s: string)
    requires NoStar(s)
    ensures Split(s, "**") == [s]
  {
    forall j: nat ensures !OccursAt(s, "**", j) {
      if j + 2 <= |s| {
        assert s[j..j + 2][0] == s[j] != '*';
      }
    }
    SplitWithoutSeparator(s, "**");
  }

  /** A piece without a line break is one line, so it is never shown. */
  lemma SingleLine(t: string)
    requires NoStar(t) && forall i :: 0 <= i < |t| ==> t[i] != '\n'
    ensures Split(t, "\n") == [t]
    ensures ParseSection(t) == None
  {
    assert !Contains(t, "\n") by {
      forall j: nat ensures !OccursAt(t, "\n", j) {
        if j + 1 <= |t| {
          assert t[j..j + 1][0] == t[j];
        }
      }
    }
    SplitWithoutSeparator(t, "\n");
  }

  // ---------------------------------------------------------------------------
  // Replies in the prompt's layout

  predicate NoNewline(s: string)
  {
    forall i :: 0 <= i < |s| ==> s[i] != '\n'
  }

  /** A heading the layout can carry: one non-empty line without '*'. It may be
      numbered, as the prompt's "1. GENEL ANLAMI:" is. */
  predicate GoodTitle(t: string)
  {
    t != [] && NoStar(t) && NoNewline(t)
  }

  /** An item the layout can carry: one trimmed, non-empty line without '*'; a
      paragraph does not start with '-'. */
  predicate GoodItem(it: Item)
  {
    it.text != [] && Trimmed(it.text) && NoStar(it.text) && NoNewline(it.text)
    && (it.Paragraph? ==> it.text[0] != '-')
  }

  predicate GoodSections(ss: seq<Section>)
  {
    forall i :: 0 <= i < |ss| ==> GoodTitle(ss[i].title) && forall j :: 0 <= j < |ss[i].items| ==> GoodItem(ss[i].items[j])
  }

  /** The line an item is written as: "- text" for a bullet, the text otherwise. */
  function ItemLine(it: Item): string
  {
    match it
    case Bullet(t) => "- " + t
    case Paragraph(t) => t
  }

  function ItemLines(items: seq<Item>): (r: seq<string>)
    ensures |r| == |items| && forall i :: 0 <= i < |items| ==> r[i] == ItemLine(items[i])
  {
    if items == [] then [] else [ItemLine(items[0])] + ItemLines(items[1..])
  }

  /** Each item's line followed by a line break. */
  function Lines(items: seq<Item>): string
  {
    if items == [] then [] else ItemLine(items[0]) + "\n" + Lines(items[1..])
  }

  /** What follows a heading: a line break, the lines, and a blank line. */
  function BodyOf(items: seq<Item>): string
  {
    "\n" + Lines(items) + "\n"
  }

  /** A reply in the layout the interpretation prompt asks for: each section as
      a bold heading, then its lines, then a blank line. */
  function Format(ss: seq<Section>): string
  {
    if ss == [] then [] else "**" + ss[0].title + "**" + BodyOf(ss[0].items) + Format(ss[1..])
  }

  /** The pieces of a formatted reply, heading and body alternately. */
  function Flat(ss: seq<Section>): (r: seq<string>)
    ensures |r| == 2 * |ss|
  {
    if ss == [] then [] else [ss[0].title, BodyOf(ss[0].items)] + Flat(ss[1..])
  }

  lemma NoStarAppend(a: string, b: string)
    requires NoStar(a) && NoStar(b)
    ensures NoStar(a + b)
  {
    forall i | 0 <= i < |a + b| ensures (a + b)[i] != '*' {
      if i >= |a| {
        assert (a + b)[i] == b[i - |a|];
      }
    }
  }

  lemma {:induction false} LinesNoStar(items: seq<Item>)
    requires forall j :: 0 <= j < |items| ==> GoodItem(items[j])
    ensures NoStar(Lines(items))
  {
    if items != [] {
      LinesNoStar(items[1..]);
      var l := ItemLine(items[0]);
      assert NoStar(l) by {
        if items[0].Bullet? {
          NoStarAppend("- ", items[0].text);
        }
      }
      NoStarAppend(l, "\n");
      NoStarAppend(l + "\n", Lines(items[1..]));
    }
  }

  lemma BodyNoStar(items: seq<Item>)
    requires forall j :: 0 <= j < |items| ==> GoodItem(items[j])
    ensures NoStar(BodyOf(items)) && BodyOf(items) != [] && BodyOf(items)[0] == '\n'
  {
    LinesNoStar(items);
    NoStarAppend("\n", Lines(items));
    NoStarAppend("\n" + Lines(items), "\n");
  }

  /** The first section of good sections is good, and so are the others. */
  lemma GoodHead(ss: seq<Section>)
    requires ss != [] && GoodSections(ss)
    ensures GoodTitle(ss[0].title) && forall j :: 0 <= j < |ss[0].items| ==> GoodItem(ss[0].items[j])
    ensures GoodSections(ss[1..])
  {
    forall i | 0 <= i < |ss| - 1
      ensures GoodTitle(ss[1..][i].title) && forall j :: 0 <= j < |ss[1..][i].items| ==> GoodItem(ss[1..][i].items[j])
    {
      assert ss[1..][i] == ss[i + 1];
    }
  }

  lemma HeadingRegroup(b: string, t: string, body: string, more: string)
    ensures b + ("**" + t + "**" + body + more) == b + "**" + (t + "**" + (body + more))
  {
  }

  lemma PiecesRegroup(b: string, t: string, b': string, f: seq<string>)
    ensures [b, t] + ([b'] + f) == [b] + ([t, b'] + f)
  {
  }

  /** Cutting at "**" a star-free part, then a formatted section with star-free
      heading, then anything. */
  lemma StarsTwice(b: string, t: string, body: string, more: string, rest: seq<string>)
    requires NoStar(b) && NoStar(t) && Split(body + more, "**") == rest
    ensures Split(b + ("**" + t + "**" + body + more), "**") == [b, t] + rest
  {
    var tail := body + more;
    SplitAtStars(t, tail);
    HeadingRegroup(b, t, body, more);
    SplitAtStars(b, t + "**" + tail);
  }

  /** Cutting a formatted reply at "**" gives an empty first piece, then the
      headings and bodies. */
  lemma FormatSplit(ss: seq<Section>)
    requires GoodSections(ss)
    ensures Split(Format(ss), "**") == [""] + Flat(ss)
  {
    RestSplit([], ss);
    assert [] + Format(ss) == Format(ss);
  }

  /** The pieces after a heading: its body, then those of the later sections. */
  lemma {:induction false} RestSplit(b: string, r: seq<Section>)
    requires NoStar(b) && GoodSections(r)
    ensures Split(b + Format(r), "**") == [b] + Flat(r)
    decreases r
  {
    if r != [] {
      GoodHead(r);
      var t, b', r' := r[0].title, BodyOf(r[0].items), r[1..];
      BodyNoStar(r[0].items);
      RestSplit(b', r');
      StarsTwice(b, t, b', Format(r'), [b'] + Flat(r'));
      PiecesRegroup(b, t, b', Flat(r'));
    } else {
      assert b + Format(r) == b;
      NoStarSplit(b);
    }
  }

  lemma {:induction false} NonEmptyKeepsAll(ps: seq<string>)
    requires forall i :: 0 <= i < |ps| ==> ps[i] != []
    ensures NonEmpty(ps) == ps
  {
    if ps != [] {
      NonEmptyKeepsAll(ps[1..]);
    }
  }

  /** The pieces the page computes for a formatted reply. */
  lemma FormatPieces(ss: seq<Section>)
    requires ss != [] && GoodSections(ss)
    ensures Pieces(Format(ss)) == Flat(ss)
  {
    FormatSplit(ss);
    var ps := [""] + Flat(ss);
    assert ps[1..] == Flat(ss);
    FlatNonEmpty(ss);
    NonEmptyKeepsAll(Flat(ss));
  }

  lemma {:induction false} FlatNonEmpty(ss: seq<Section>)
    requires GoodSections(ss)
    ensures forall i :: 0 <= i < |Flat(ss)| ==> Flat(ss)[i] != []
  {
    if ss != [] {
      FlatNonEmpty(ss[1..]);
      BodyNoStar(ss[0].items);
      forall i | 0 <= i < |Flat(ss)| ensures Flat(ss)[i] != [] {
        if i >= 2 {
          assert Flat(ss)[i] == Flat(ss[1..])[i - 2];
        }
      }
    }
  }

  /** AS WRITTEN: the page shows no section at all for a reply laid out as the
      prompt asks. Every heading is a piece without a second line and every body
      is a piece whose first line is empty. */
  lemma FormattedReplyShowsNothing(ss: seq<Section>)
    requires GoodSections(ss)
    ensures ParseInterpretation(Format(ss)) == []
  {
    if ss != [] {
      FormatPieces(ss);
      FlatShowsNothing(ss);
    }
  }

  lemma {:induction false} FlatShowsNothing(ss: seq<Section>)
    requires GoodSections(ss)
    ensures Shown(Flat(ss)) == []
  {
    if ss != [] {
      var t, b := ss[0].title, BodyOf(ss[0].items);
      BodyNoStar(ss[0].items);
      SingleLine(t);
      assert OccursAt(b, "\n", 0);
      IndexOfIs(b, "\n", 0);
      assert ParseSection(b) == None;
      FlatShowsNothing(ss[1..]);
      var f := Flat(ss);
      assert f[1..][1..] == Flat(ss[1..]);
      assert Shown(f[1..]) == Shown(Flat(ss[1..]));
    }
  }

  /** CORRECTED: the pieces are read in pairs, a heading and the body after it;
      the body's non-blank lines are the section's items. */
  function Paired(pieces: seq<string>): (r: seq<Section>)
    ensures |r| == |pieces| / 2
  {
    if |pieces| < 2 then []
    else [Section(StripNumbering(pieces[0]), Items(Split(pieces[1], "\n")))] + Paired(pieces[2..])
  }

  function ParsePaired(text: string): seq<Section>
  {
    Paired(Pieces(text))
  }

  /** Cutting at a line break where the first part has none. */
  lemma SplitAtNewline(a: string, b: string)
    requires NoNewline(a)
    ensures Split(a + "\n" + b, "\n") == [a] + Split(b, "\n")
  {
    var s := a + "\n" + b;
    assert s[|a|..|a| + 1] == "\n";
    assert OccursAt(s, "\n", |a|);
    forall j: nat | j < |a| ensures !OccursAt(s, "\n", j) {
      assert s[j..j + 1][0] == s[j] == a[j];
    }
    IndexOfIs(s, "\n", |a|);
    assert s[..|a|] == a;
    assert s[|a| + 1..] == b;
  }

  lemma ItemLineOneLine(it: Item)
    requires GoodItem(it)
    ensures NoNewline(ItemLine(it))
  {
    if it.Bullet? {
      var l := "- " + it.text;
      forall i | 0 <= i < |l| ensures l[i] != '\n' {
        if i >= 2 {
          assert l[i] == it.text[i - 2];
        }
      }
    }
  }

  lemma {:induction false} LinesSplit(items: seq<Item>, tail: string)
    requires forall j :: 0 <= j < |items| ==> GoodItem(items[j])
    ensures Split(Lines(items) + tail, "\n") == ItemLines(items) + Split(tail, "\n")
  {
    if items != [] {
      var l, rest := ItemLine(items[0]), Lines(items[1..]);
      ItemLineOneLine(items[0]);
      LineRegroup(l, "\n", rest, tail);
      SplitAtNewline(l, rest + tail);
      LinesSplit(items[1..], tail);
      AppendAssoc([l], ItemLines(items[1..]), Split(tail, "\n"));
    } else {
      assert [] + tail == tail;
    }
  }

  lemma LineRegroup(a: string, b: string, c: string, d: string)
    ensures a + b + c + d == a + b + (c + d)
  {
  }

  lemma {:induction false} ItemsAppend(a: seq<string>, b: seq<string>)
    ensures Items(a + b) == Items(a) + Items(b)
  {
    if a != [] {
      assert (a + b)[0] == a[0];
      assert (a + b)[1..] == a[1..] + b;
      ItemsAppend(a[1..], b);
      AppendAssoc(ItemOf(a[0]), Items(a[1..]), Items(b));
    } else {
      assert a + b == b;
    }
  }

  /** A bullet's line reads back as that bullet. */
  lemma BulletLineParses(t: string)
    requires t != [] && Trimmed(t)
    ensures Trim("- " + t) == "- " + t && ToItem("- " + t) == Bullet(t)
  {
    var l := "- " + t;
    DashLineTrimmed(t);
    assert StartsWith(Trim(l), "-") by { assert l[..1] == "-"; }
    BulletText(l);
    assert Trim(l)[1..] == " " + t;
    SpaceThenTrimmed(t);
  }

  lemma DashLineTrimmed(t: string)
    requires t != [] && Trimmed(t)
    ensures Trim("- " + t) == "- " + t
  {
    var l := "- " + t;
    assert l[|l| - 1] == t[|t| - 1];
    TrimOfTrimmed(l);
  }

  lemma SpaceThenTrimmed(t: string)
    requires Trimmed(t)
    ensures Trim(" " + t) == t
  {
    assert " " + t == " " + t + [];
    assert AllSpace(" ") && AllSpace([]);
    TrimAround(" ", t, []);
    TrimOfTrimmed(t);
  }

  /** An item's line reads back as that item. */
  lemma ItemLineParses(it: Item)
    requires GoodItem(it)
    ensures Trim(ItemLine(it)) != [] && ToItem(ItemLine(it)) == it
  {
    if it.Bullet? {
      BulletLineParses(it.text);
    } else {
      TrimOfTrimmed(it.text);
    }
  }

  lemma ItemOfLine(it: Item)
    requires GoodItem(it)
    ensures ItemOf(ItemLine(it)) == [it]
  {
    ItemLineParses(it);
  }

  lemma ItemsCons(x: string, rest: seq<string>)
    ensures Items([x] + rest) == ItemOf(x) + Items(rest)
  {
    assert ([x] + rest)[0] == x;
    assert ([x] + rest)[1..] == rest;
  }

  lemma {:induction false} ItemsOfLines(items: seq<Item>)
    requires forall j :: 0 <= j < |items| ==> GoodItem(items[j])
    ensures Items(ItemLines(items)) == items
  {
    if items != [] {
      ItemOfLine(items[0]);
      ItemsOfLines(items[1..]);
      ItemsCons(ItemLine(items[0]), ItemLines(items[1..]));
      assert items == [items[0]] + items[1..];
    }
  }

  /** The lines of a body: an empty one, the items' lines, then two empty ones. */
  lemma BodyLines(items: seq<Item>)
    requires forall j :: 0 <= j < |items| ==> GoodItem(items[j])
    ensures Split(BodyOf(items), "\n") == [[]] + (ItemLines(items) + [[], []])
  {
    LinesSplit(items, "\n");
    LineBreakSplit();
    LeadingBreakSplit(Lines(items), ItemLines(items) + [[], []]);
  }

  /** A leading line break adds an empty first line. */
  lemma LeadingBreakSplit(x: string, rest: seq<string>)
    requires Split(x + "\n", "\n") == rest
    ensures Split("\n" + x + "\n", "\n") == [[]] + rest
  {
    assert NoNewline([]);
    assert "\n" + x + "\n" == [] + "\n" + (x + "\n");
    SplitAtNewline([], x + "\n");
  }

  /** A lone line break splits into two empty lines. */
  lemma LineBreakSplit()
    ensures Split("\n", "\n") == [[], []]
  {
    assert "\n" == [] + "\n" + [];
    SplitAtNewline([], []);
    assert Split([], "\n") == [[]];
  }

  /** Blank lines around a run of lines add no items. */
  lemma BlankAround(ls: seq<string>)
    ensures Items([[]] + (ls + [[], []])) == Items(ls)
  {
    ItemsAppend([[]], ls + [[], []]);
    ItemsAppend(ls, [[], []]);
    assert Items([[], []]) == [];
    assert Items([[]]) == [];
  }

  /** A body reads back as its items: the blank lines around them are dropped. */
  lemma BodyItems(items: seq<Item>)
    requires forall j :: 0 <= j < |items| ==> GoodItem(items[j])
    ensures Items(Split(BodyOf(items), "\n")) == items
  {
    BodyLines(items);
    BlankAround(ItemLines(items));
    ItemsOfLines(items);
  }

  /** The sections as the page titles them: each heading without its numbering. */
  function Displayed(ss: seq<Section>): (r: seq<Section>)
    ensures |r| == |ss|
    ensures forall i :: 0 <= i < |ss| ==> r[i] == Section(StripNumbering(ss[i].title), ss[i].items)
  {
    if ss == [] then [] else [Section(StripNumbering(ss[0].title), ss[0].items)] + Displayed(ss[1..])
  }

  /** No heading starts with a digit. */
  predicate Unnumbered(ss: seq<Section>)
  {
    forall i :: 0 <= i < |ss| ==> ss[i].title == [] || !IsDigit(ss[i].title[0])
  }

  /** Headings without a number are displayed as they are. */
  lemma DisplayedUnnumbered(ss: seq<Section>)
    requires Unnumbered(ss)
    ensures Displayed(ss) == ss
  {
    forall i | 0 <= i < |ss| ensures Displayed(ss)[i] == ss[i] {
      StripNumberingOfUnnumbered(ss[i].title);
    }
  }

  lemma {:induction false} PairedFlat(ss: seq<Section>)
    requires GoodSections(ss)
    ensures Paired(Flat(ss)) == Displayed(ss)
  {
    if ss != [] {
      PairedFlat(ss[1..]);
      BodyItems(ss[0].items);
      assert Flat(ss)[2..] == Flat(ss[1..]);
      assert ss == [ss[0]] + ss[1..];
    }
  }

  /** The corrected reading recovers every section of a reply in the prompt's
      layout, in order: each heading without its numbering, with its bullets and
      paragraphs; a reply without numbered headings is recovered exactly. */
  lemma PairedReadsFormat(ss: seq<Section>)
    requires GoodSections(ss)
    ensures |ParsePaired(Format(ss))| == |ss|
    ensures forall i :: 0 <= i < |ss| ==> ParsePaired(Format(ss))[i] == Section(StripNumbering(ss[i].title), ss[i].items)
    ensures Unnumbered(ss) ==> ParsePaired(Format(ss)) == ss
  {
    if ss != [] {
      FormatPieces(ss);
      PairedFlat(ss);
    }
    if Unnumbered(ss) {
      DisplayedUnnumbered(ss);
    }
  }

  /** The start of a reply in the prompt's layout, with its first numbered
      heading: the text "**1. GENEL ANLAMI:**\nRüya özgürlüğü anlatır.\n\n". */
  const ExampleHeading := "1. GENEL ANLAMI:"
  const ExampleLine := "Rüya özgürlüğü anlatır."
  const ExampleReply := "**" + ExampleHeading + "**" + ("\n" + (ExampleLine + "\n") + "\n")

  /** The sections `ExampleReply` is written from. */
  const ExampleSections := [Section(ExampleHeading, [Paragraph(ExampleLine)])]

  lemma ExampleIsFormatted()
    ensures GoodSections(ExampleSections) && Format(ExampleSections) == ExampleReply
  {
    var it := Paragraph(ExampleLine);
    assert GoodItem(it);
    assert GoodTitle(ExampleHeading);
    assert [it][1..] == [] && ExampleSections[1..] == [];
    assert Lines([it]) == ItemLine(it) + "\n" + Lines([]);
    assert ExampleLine + "\n" + [] == ExampleLine + "\n";
  }

  /** The prompt's first heading loses its number. */
  lemma ExampleTitle()
    ensures StripNumbering(ExampleHeading) == "GENEL ANLAMI:"
  {
    assert ExampleHeading == "1" + "." + " " + "GENEL ANLAMI:";
    StripNumberingOfNumbered("1", " ", "GENEL ANLAMI:");
  }

  /** AS WRITTEN, on the prompt's first section: the page shows nothing. */
  lemma ExampleReplyShowsNothing()
    ensures ParseInterpretation(ExampleReply) == []
  {
    ExampleIsFormatted();
    FormattedReplyShowsNothing(ExampleSections);
  }

  /** CORRECTED, on the same reply: one section, titled without its number. */
  lemma ExampleReplyPaired()
    ensures ParsePaired(ExampleReply) == [Section("GENEL ANLAMI:", [Paragraph(ExampleLine)])]
  {
    ExampleIsFormatted();
    PairedReadsFormat(ExampleSections);
    ExampleTitle();
  }

  // ---------------------------------------------------------------------------
  // The dream form

  /** The textarea's `maxLength={500}`. */
  const MaxDreamInput := 500

  /** What the textarea holds after the user types or pastes `value`: at most
      its first 500 characters. */
  function AcceptInput(value: string): (r: string)
    ensures |r| <= MaxDreamInput && |r| <= |value|
    ensures r == value[..|r|]
    ensures |value| <= MaxDreamInput ==> r == value
    ensures |value| > MaxDreamInput ==> |r| == MaxDreamInput
  {
    if |value| <= MaxDreamInput then value else value[..MaxDreamInput]
  }

  /** `disabled={isLoading || dream.length === 0}`, negated. */
  predicate CanSubmit(isLoading: bool, dream: string)
  {
    !isLoading && |dream| != 0
  }

  /** The form posts to the Gemini-only endpoint. Every dream it lets through
      fits that endpoint's body checks except one or two characters long, which
      the form allows and the endpoint answers with 400. */
  lemma SubmittedDream(value: string, generate: string -> InterpretApi.Generation)
    requires CanSubmit(false, AcceptInput(value))
    ensures var d := AcceptInput(value);
            var r := InterpretApi.Interpret("POST", InterpretApi.Body(InterpretApi.Str(d)), generate);
            (|d| < InterpretApi.MinDreamLength ==> r.status == 400)
            && (|d| >= InterpretApi.MinDreamLength ==> (r.status == 200 <==> generate(d).Generated?))
  {
  }

  // ---------------------------------------------------------------------------
  // Page state and logout

  datatype UserView = UserView(id: string, name: string, email: string)
  datatype DreamEntry = DreamEntry(id: string, dreamText: string, interpretation: string, createdAt: int)

  /** The parts of the page's state that logout touches or that a request
      reads: the two local-storage entries and the React state. */
  datatype HomeState = HomeState(storedToken: Option<string>, storedUser: Option<string>,
                                 user: Option<UserView>, dreams: seq<DreamEntry>,
                                 dream: string, interpretation: string, isLoading: bool, error: string)

  /** `handleLogout`: both storage entries removed, the user and the dream list
      cleared; the form, the shown interpretation and the error stay. */
  function Logout(s: HomeState): (r: HomeState)
    ensures r.storedToken.None? && r.storedUser.None? && r.user.None? && r.dreams == []
    ensures r.dream == s.dream && r.interpretation == s.interpretation
    ensures r.isLoading == s.isLoading && r.error == s.error
  {
    s.(storedToken := None, storedUser := None, user := None, dreams := [])
  }

  /** The Authorization header `handleSubmit` attaches: only for a non-empty
      stored token. */
  function AuthHeader(s: HomeState): (h: Option<string>)
    ensures h.Some? <==> s.storedToken.Some? && s.storedToken.value != []
    ensures h.Some? ==> h.value == "Bearer " + s.storedToken.value
  {
    match s.storedToken
    case Some(t) => if t != [] then Some("Bearer " + t) else None
    case None => None
  }

  /** After logout a submission carries no credentials, and logging out twice is
      logging out once. */
  lemma LogoutForgetsSession(s: HomeState)
    ensures AuthHeader(Logout(s)) == None
    ensures Logout(Logout(s)) == Logout(s)
  {
  }
}
