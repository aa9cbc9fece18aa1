// `sanitizeInterpretation`, the clean-up applied to provider text before it is
// returned: a regular-expression strip of disallowed characters, a collapse of
// every whitespace run to one space, then `trim`. Three endpoints share the plain
// character class; the OpenAI endpoint's copy also keeps Turkish letters and '#'.

module Sanitizer {
  import opened Text

  /** Which copy of the sanitiser: `Basic` keeps `[\w\s.,!?-]`, `Turkish` keeps
      `[\w\söçşğüıİĞÜŞÖÇ.,!?#-]`. */
  datatype Variant = Basic | Turkish

  /** `\w` without the `u` flag: ASCII letters, digits and underscore only. */
  predicate IsWordChar(c: char)
  {
    ('a' <= c <= 'z') || ('A' <= c <= 'Z') || ('0' <= c <= '9') || c == '_'
  }

  predicate IsPunct(c: char)
  {
    c == '.' || c == ',' || c == '!' || c == '?' || c == '-'
  }

  /** The extra members of the Turkish variant's class. */
  predicate IsTurkishExtra(c: char)
  {
    c == 'ö' || c == 'ç' || c == 'ş' || c == 'ğ' || c == 'ü' || c == 'ı' || c == 'İ'
    || c == 'Ğ' || c == 'Ü' || c == 'Ş' || c == 'Ö' || c == 'Ç' || c == '#'
  }

  /** The characters the first `replace` leaves in place. */
  predicate Kept(v: Variant, c: char)
  {
    IsWordChar(c) || IsSpace(c) || IsPunct(c) || (v == Turkish && IsTurkishExtra(c))
  }

  /** The characters that can appear in sanitised text: a kept character that is not
      whitespace, or the one space that replaces a whitespace run. */
  predicate OutputChar(v: Variant, c: char)
  {
    c == ' ' || (Kept(v, c) && !IsSpace(c))
  }

  predicate NoDoubleSpace(s: string)
  {
    forall i :: 0 <= i < |s| - 1 ==> s[i] != ' ' || s[i + 1] != ' '
  }

  /** What sanitised text looks like: only output characters, no two spaces in a
      row, nothing to trim. */
  predicate Clean(v: Variant, s: string)
  {
    (forall i :: 0 <= i < |s| ==> OutputChar(v, s[i])) && NoDoubleSpace(s) && Trimmed(s)
  }

  /** Step 1, `replace(/[^...]/g, '')`: drops every character outside the class. */
  function Strip(v: Variant, s: string): (r: string)
    ensures |r| <= |s|
    ensures forall i :: 0 <= i < |r| ==> Kept(v, r[i])
    ensures (forall i :: 0 <= i < |s| ==> Kept(v, s[i])) ==> r == s
  {
    if s == [] then []
    else (if Kept(v, s[0]) then [s[0]] else []) + Strip(v, s[1..])
  }

  /** Step 2, `replace(/\s+/g, ' ')`: every maximal whitespace run becomes one space. */
  function Collapse(s: string): (r: string)
    ensures |r| <= |s|
    ensures forall i :: 0 <= i < |r| ==> r[i] == ' ' || (!IsSpace(r[i]) && r[i] in s)
    ensures NoDoubleSpace(r)
    ensures s != [] ==> r != [] && (IsSpace(s[0]) || r[0] == s[0])
    decreases |s|
  {
    if s == [] then []
    else if IsSpace(s[0]) then
      var rest := s[SkipSpace(s, 1)..];
      assert forall c :: c in rest ==> c in s;
      [' '] + Collapse(rest)
    else
      assert forall c :: c in s[1..] ==> c in s;
      [s[0]] + Collapse(s[1..])
  }

  /** The whole sanitiser: strip, collapse, trim. */
  function Sanitize(v: Variant, s: string): (r: string)
    ensures |r| <= |s|
    ensures Clean(v, r)
  {
    var stripped := Strip(v, s);
    var collapsed := Collapse(stripped);
    var r := Trim(collapsed);
    assert forall i :: 0 <= i < |r| ==> r[i] == collapsed[TrimLo(collapsed) + i];
    assert forall c :: c in stripped ==> Kept(v, c);
    r
  }

  /** Collapsing text whose only whitespace is single spaces changes nothing. */
  lemma {:induction false} CollapseOfCollapsed(s: string)
    requires forall i :: 0 <= i < |s| ==> s[i] == ' ' || !IsSpace(s[i])
    requires NoDoubleSpace(s)
    ensures Collapse(s) == s
    decreases |s|
  {
    if s != [] {
      if IsSpace(s[0]) {
        assert SkipSpace(s, 1) == 1 by {
          if |s| > 1 {
            assert s[1] != ' ';
          }
        }
      }
      CollapseOfCollapsed(s[1..]);
    }
  }

  /** Clean text is exactly the text that sanitising leaves unchanged. */
  lemma SanitizeFixedPoints(v: Variant, t: string)
    ensures Sanitize(v, t) == t <==> Clean(v, t)
  {
    if Clean(v, t) {
      assert Strip(v, t) == t;
      CollapseOfCollapsed(t);
      TrimOfTrimmed(t);
    }
  }

  /** Sanitising twice gives the same text as sanitising once. */
  lemma SanitizeIdempotent(v: Variant, s: string)
    ensures Sanitize(v, Sanitize(v, s)) == Sanitize(v, s)
  {
    SanitizeFixedPoints(v, Sanitize(v, s));
  }

  /** The plain variant's output is pure ASCII: Turkish letters never survive it. */
  lemma BasicOutputIsAscii(s: string)
    ensures forall i :: 0 <= i < |Sanitize(Basic, s)| ==> Sanitize(Basic, s)[i] as int < 128
  {
    CleanBasicIsAscii(Sanitize(Basic, s));
  }

  lemma CleanBasicIsAscii(r: string)
    requires Clean(Basic, r)
    ensures forall i :: 0 <= i < |r| ==> r[i] as int < 128
  {
    forall i | 0 <= i < |r| ensures r[i] as int < 128 {
      assert OutputChar(Basic, r[i]);
    }
  }

  /** The non-whitespace characters of `s`, in order. */
  function Visible(s: string): string
  {
    if s == [] then [] else (if IsSpace(s[0]) then [] else [s[0]]) + Visible(s[1..])
  }

  /** The characters of `s` that the sanitiser must keep: in the class and not
      whitespace, in order. */
  function Survivors(v: Variant, s: string): string
  {
    if s == [] then [] else (if Kept(v, s[0]) && !IsSpace(s[0]) then [s[0]] else []) + Survivors(v, s[1..])
  }

  lemma {:induction false} VisibleAppend(a: string, b: string)
    ensures Visible(a + b) == Visible(a) + Visible(b)
  {
    if a == [] {
      assert a + b == b;
    } else {
      assert (a + b)[0] == a[0];
      assert (a + b)[1..] == a[1..] + b;
      VisibleAppend(a[1..], b);
      AppendAssoc(if IsSpace(a[0]) then [] else [a[0]], Visible(a[1..]), Visible(b));
    }
  }

  lemma {:induction false} VisibleOfSpace(s: string)
    requires AllSpace(s)
    ensures Visible(s) == []
  {
    if s != [] {
      VisibleOfSpace(s[1..]);
    }
  }

  lemma {:induction false} StripVisible(v: Variant, s: string)
    ensures Visible(Strip(v, s)) == Survivors(v, s)
  {
    if s != [] {
      StripVisible(v, s[1..]);
      VisibleAppend(if Kept(v, s[0]) then [s[0]] else [], Strip(v, s[1..]));
    }
  }

  lemma {:induction false} CollapseVisible(s: string)
    ensures Visible(Collapse(s)) == Visible(s)
    decreases |s|
  {
    if s != [] {
      var n := if IsSpace(s[0]) then SkipSpace(s, 1) else 1;
      assert s == s[..n] + s[n..];
      VisibleAppend(s[..n], s[n..]);
      CollapseVisible(s[n..]);
      if IsSpace(s[0]) {
        VisibleOfSpace(s[..n]);
        VisibleAppend([' '], Collapse(s[n..]));
      } else {
        VisibleAppend([s[0]], Collapse(s[n..]));
      }
    }
  }

  lemma TrimVisible(s: string)
    ensures Visible(Trim(s)) == Visible(s)
  {
    TrimSides(s);
    var p, t, q := s[..TrimLo(s)], Trim(s), s[TrimHi(s)..];
    VisibleAppend(p + t, q);
    VisibleAppend(p, t);
    VisibleOfSpace(p);
    VisibleOfSpace(q);
    assert [] + Visible(t) + [] == Visible(t);
  }

  /** Sanitising loses no character of the class other than whitespace: apart from
      spaces, the output is exactly the input's kept characters in their order. */
  lemma SanitizeKeepsText(v: Variant, s: string)
    ensures Visible(Sanitize(v, s)) == Survivors(v, s)
  {
    StripVisible(v, s);
    CollapseVisible(Strip(v, s));
    TrimVisible(Collapse(Strip(v, s)));
  }
}
