// String operations of the JavaScript runtime that the handlers, the sanitiser
// and the page parser rely on: the `\s` character class, `trim`, `split`,
// `includes`, `startsWith`, `replace` with a string pattern and `toLowerCase`.

module Text {

  datatype Option<+T> = None | Some(value: T)

  datatype Result<+T, +E> = Ok(value: T) | Err(error: E)

  /** The code points that ECMAScript's `\s` matches and that `String.prototype.trim`
      removes: WhiteSpace (TAB, VT, FF, SP, NBSP, ZWNBSP and the Zs category) and
      LineTerminator (LF, CR, LS, PS). */
  predicate IsSpace(c: char)
  {
    c == '\t' || c == '\n' || c == '\U{000B}' || c == '\U{000C}' || c == '\r' || c == ' '
    || c == '\U{00A0}' || c == '\U{1680}' || ('\U{2000}' <= c <= '\U{200A}')
    || c == '\U{2028}' || c == '\U{2029}' || c == '\U{202F}' || c == '\U{205F}'
    || c == '\U{3000}' || c == '\U{FEFF}'
  }

  predicate NoSpace(s: string)
  {
    forall i :: 0 <= i < |s| ==> !IsSpace(s[i])
  }

  predicate AllSpace(s: string)
  {
    forall i :: 0 <= i < |s| ==> IsSpace(s[i])
  }

  /** A string with no whitespace at either end. */
  predicate Trimmed(s: string)
  {
    s == [] || (!IsSpace(s[0]) && !IsSpace(s[|s| - 1]))
  }

  /** The first index at or after `k` that does not hold whitespace (or |s|). */
  function SkipSpace(s: string, k: nat): (n: nat)
    requires k <= |s|
    ensures k <= n <= |s|
    ensures forall i :: k <= i < n ==> IsSpace(s[i])
    ensures n < |s| ==> !IsSpace(s[n])
    decreases |s| - k
  {
    if k < |s| && IsSpace(s[k]) then SkipSpace(s, k + 1) else k
  }

  /** Scanning down from `k` but not below `lo`: the end of `s[lo..k]` once its
      trailing whitespace is removed. */
  function BackSpace(s: string, lo: nat, k: nat): (m: nat)
    requires lo <= k <= |s|
    ensures lo <= m <= k
    ensures forall i :: m <= i < k ==> IsSpace(s[i])
    ensures m > lo ==> !IsSpace(s[m - 1])
    decreases k
  {
    if k > lo && IsSpace(s[k - 1]) then BackSpace(s, lo, k - 1) else k
  }

  /** Index where `Trim(s)` starts in `s`. */
  function TrimLo(s: string): nat
    ensures TrimLo(s) <= |s|
  {
    SkipSpace(s, 0)
  }

  /** Index where `Trim(s)` ends in `s`. */
  function TrimHi(s: string): nat
    ensures TrimLo(s) <= TrimHi(s) <= |s|
  {
    BackSpace(s, TrimLo(s), |s|)
  }

  /** `String.prototype.trim`: the input without whitespace at either end. */
  function Trim(s: string): (r: string)
    ensures |r| <= |s|
    ensures Trimmed(r)
    ensures r == s[TrimLo(s)..TrimHi(s)]
    ensures forall i :: 0 <= i < TrimLo(s) ==> IsSpace(s[i])
    ensures forall i :: TrimHi(s) <= i < |s| ==> IsSpace(s[i])
    ensures r == [] <==> AllSpace(s)
  {
    var lo, hi := TrimLo(s), TrimHi(s);
    if lo < hi then
      assert s[lo..hi][0] == s[lo] && s[lo..hi][hi - lo - 1] == s[hi - 1];
      s[lo..hi]
    else
      []
  }

  /** Trimming a string without whitespace at its ends changes nothing. */
  lemma TrimOfTrimmed(s: string)
    requires Trimmed(s)
    ensures Trim(s) == s
  {
  }

  lemma {:induction false} SkipSpaceAt(s: string, k: nat, n: nat)
    requires k <= n <= |s|
    requires forall i :: k <= i < n ==> IsSpace(s[i])
    requires n < |s| ==> !IsSpace(s[n])
    ensures SkipSpace(s, k) == n
    decreases n - k
  {
    if k < n {
      SkipSpaceAt(s, k + 1, n);
    }
  }

  lemma {:induction false} BackSpaceAt(s: string, lo: nat, k: nat, m: nat)
    requires lo <= m <= k <= |s|
    requires forall i :: m <= i < k ==> IsSpace(s[i])
    requires m > lo ==> !IsSpace(s[m - 1])
    ensures BackSpace(s, lo, k) == m
    decreases k
  {
    if m < k {
      BackSpaceAt(s, lo, k - 1, m);
    }
  }

  lemma AllSpaceAppend(a: string, b: string)
    requires AllSpace(a) && AllSpace(b)
    ensures AllSpace(a + b)
  {
    forall i | 0 <= i < |a + b| ensures IsSpace((a + b)[i]) {
      if i >= |a| {
        assert (a + b)[i] == b[i - |a|];
      }
    }
  }

  /** Whitespace around a non-empty trimmed text is exactly what `trim` removes. */
  lemma TrimUnique(p: string, r: string, q: string)
    requires AllSpace(p) && AllSpace(q) && Trimmed(r) && r != []
    ensures Trim(p + r + q) == r
  {
    var s := p + r + q;
    assert forall i :: 0 <= i < |p| ==> s[i] == p[i];
    assert s[|p|] == r[0];
    SkipSpaceAt(s, 0, |p|);
    assert forall i :: |p| + |r| <= i < |s| ==> s[i] == q[i - |p| - |r|];
    assert s[|p| + |r| - 1] == r[|r| - 1];
    BackSpaceAt(s, |p|, |s|, |p| + |r|);
    assert s[|p|..|p| + |r|] == r;
  }

  /** What `trim` removes is whitespace. */
  lemma TrimSides(s: string)
    ensures AllSpace(s[..TrimLo(s)]) && AllSpace(s[TrimHi(s)..])
    ensures s == s[..TrimLo(s)] + Trim(s) + s[TrimHi(s)..]
  {
    var lo, hi := TrimLo(s), TrimHi(s);
    forall i | 0 <= i < lo ensures IsSpace(s[..lo][i]) {
      assert s[..lo][i] == s[i];
    }
    forall i | 0 <= i < |s| - hi ensures IsSpace(s[hi..][i]) {
      assert s[hi..][i] == s[hi + i];
    }
    assert s == s[..lo] + s[lo..hi] + s[hi..];
  }

  lemma Regroup(p: string, a: string, t: string, b: string, q: string)
    ensures p + (a + t + b) + q == (p + a) + t + (b + q)
  {
  }

  /** Whitespace added at either end makes no difference to `trim`. */
  lemma TrimAround(p: string, x: string, q: string)
    requires AllSpace(p) && AllSpace(q)
    ensures Trim(p + x + q) == Trim(x)
  {
    TrimSides(x);
    var lo, hi := TrimLo(x), TrimHi(x);
    var p', q' := p + x[..lo], x[hi..] + q;
    AllSpaceAppend(p, x[..lo]);
    AllSpaceAppend(x[hi..], q);
    Regroup(p, x[..lo], Trim(x), x[hi..], q);
    if Trim(x) == [] {
      AllSpaceAppend(p', q');
      assert p' + Trim(x) + q' == p' + q';
    } else {
      TrimUnique(p', Trim(x), q');
    }
  }

  predicate StartsWith(s: string, prefix: string)
  {
    |prefix| <= |s| && s[..|prefix|] == prefix
  }

  /** `pat` occurs in `s` starting at index `k`. */
  predicate OccursAt(s: string, pat: string, k: nat)
  {
    k + |pat| <= |s| && s[k..k + |pat|] == pat
  }

  lemma OccursAtShift(s: string, pat: string, k: nat)
    requires s != []
    ensures OccursAt(s, pat, k + 1) <==> OccursAt(s[1..], pat, k)
  {
    if k + 1 + |pat| <= |s| {
      assert s[k + 1..k + 1 + |pat|] == s[1..][k..k + |pat|];
    }
  }

  /** `String.prototype.indexOf`: the first index at which `pat` occurs. */
  function IndexOf(s: string, pat: string): (r: Option<nat>)
    ensures r.Some? ==> OccursAt(s, pat, r.value)
    ensures r.Some? ==> forall j: nat :: j < r.value ==> !OccursAt(s, pat, j)
    ensures r.None? ==> forall j: nat :: !OccursAt(s, pat, j)
  {
    if |s| < |pat| then None
    else if s[..|pat|] == pat then Some(0)
    else
      IndexOfStep(s, pat);
      match IndexOf(s[1..], pat)
      case None => None
      case Some(k) => Some(k + 1)
  }

  lemma IndexOfStep(s: string, pat: string)
    requires |s| >= |pat| && s[..|pat|] != pat
    ensures !OccursAt(s, pat, 0)
    ensures forall j: nat :: j > 0 ==> (OccursAt(s, pat, j) <==> OccursAt(s[1..], pat, j - 1))
  {
    forall j: nat | j > 0 ensures OccursAt(s, pat, j) <==> OccursAt(s[1..], pat, j - 1) {
      OccursAtShift(s, pat, j - 1);
    }
  }

  /** The first occurrence is where `indexOf` finds it. */
  lemma IndexOfIs(s: string, pat: string, k: nat)
    requires OccursAt(s, pat, k)
    requires forall j: nat :: j < k ==> !OccursAt(s, pat, j)
    ensures IndexOf(s, pat) == Some(k)
  {
  }

  /** `String.prototype.includes`: `pat` occurs somewhere in `s`. */
  function Contains(s: string, pat: string): (r: bool)
    ensures r <==> exists k: nat :: OccursAt(s, pat, k)
  {
    IndexOf(s, pat).Some?
  }

  lemma PrefixOfAppend(p: string, t: string)
    ensures StartsWith(p + t, p) && (p + t)[|p|..] == t
  {
    assert (p + t)[..|p|] == p;
  }

  /** Text put before or after a string keeps what it contains. */
  lemma ContainsAppend(a: string, x: string, pat: string)
    requires Contains(x, pat)
    ensures Contains(a + x, pat) && Contains(x + a, pat)
  {
    var k: nat :| OccursAt(x, pat, k);
    assert (a + x)[|a| + k..|a| + k + |pat|] == x[k..k + |pat|];
    assert OccursAt(a + x, pat, |a| + k);
    assert (x + a)[k..k + |pat|] == x[k..k + |pat|];
    assert OccursAt(x + a, pat, k);
  }

  lemma ContainsSuffix(a: string, pat: string)
    ensures Contains(a + pat, pat)
  {
    assert (a + pat)[|a|..|a| + |pat|] == pat;
    assert OccursAt(a + pat, pat, |a|);
  }

  /** `String.prototype.replace` with a string pattern: only the first occurrence is replaced. */
  function ReplaceFirst(s: string, pat: string, rep: string): (r: string)
    ensures IndexOf(s, pat).None? ==> r == s
    ensures IndexOf(s, pat).Some? ==>
              var k := IndexOf(s, pat).value;
              r == s[..k] + rep + s[k + |pat|..]
  {
    match IndexOf(s, pat)
    case None => s
    case Some(k) => s[..k] + rep + s[k + |pat|..]
  }

  /** Inverse of `Split`: the pieces with `sep` between each two. */
  function Join(parts: seq<string>, sep: string): string
  {
    if parts == [] then []
    else if |parts| == 1 then parts[0]
    else parts[0] + sep + Join(parts[1..], sep)
  }

  lemma AppendAssoc<T>(x: seq<T>, y: seq<T>, z: seq<T>)
    ensures x + (y + z) == (x + y) + z
  {
  }

  /** `String.prototype.split` with a non-empty string separator: cuts at each
      occurrence found scanning left to right. */
  function Split(s: string, sep: string): (r: seq<string>)
    requires sep != []
    ensures |r| >= 1
    decreases |s|
  {
    match IndexOf(s, sep)
    case None => [s]
    case Some(k) => [s[..k]] + Split(s[k + |sep|..], sep)
  }

  /** Joining the parts with the separator gives the text back, and no part
      contains the separator. */
  lemma {:induction false} SplitJoin(s: string, sep: string)
    requires sep != []
    ensures Join(Split(s, sep), sep) == s
    ensures forall i :: 0 <= i < |Split(s, sep)| ==> !Contains(Split(s, sep)[i], sep)
    decreases |s|
  {
    match IndexOf(s, sep)
    case None =>
    case Some(k) =>
      SplitStep(s, sep, k);
      var rest := s[k + |sep|..];
      SplitJoin(rest, sep);
      var r := Split(s, sep);
      assert r == [s[..k]] + Split(rest, sep);
      assert r[1..] == Split(rest, sep);
      forall i | 1 <= i < |r| ensures !Contains(r[i], sep) {
        assert r[i] == Split(rest, sep)[i - 1];
      }
  }

  /** `p` ends where the separator first occurs in `p + sep`: a cut right after
      `p` is at the first occurrence. */
  predicate CutsFirst(p: string, sep: string)
  {
    IndexOf(p + sep, sep) == Some(|p|)
  }

  /** Each cut is at the first occurrence of the separator after the previous
      cut: every piece but the last is followed by the first occurrence of the
      separator after it. For a separator that overlaps itself, such as "**",
      this is what picks the leftmost cutting. */
  lemma {:induction false} SplitCutsFirst(s: string, sep: string)
    requires sep != []
    ensures forall i :: 0 <= i < |Split(s, sep)| - 1 ==> CutsFirst(Split(s, sep)[i], sep)
    decreases |s|
  {
    match IndexOf(s, sep)
    case None =>
    case Some(k) =>
      FirstCut(s, sep, k);
      var rest := s[k + |sep|..];
      SplitCutsFirst(rest, sep);
      var r, t := Split(s, sep), Split(rest, sep);
      assert r == [s[..k]] + t;
      forall i | 0 <= i < |r| - 1 ensures CutsFirst(r[i], sep) {
        if i > 0 {
          assert r[i] == t[i - 1];
        }
      }
  }

  /** With a separator that overlaps itself the leftmost occurrence wins:
      "***" is cut after its first two stars, not before its last two. */
  lemma SplitOverlapping()
    ensures Split("***", "**") == ["", "*"]
  {
    assert OccursAt("***", "**", 0);
    IndexOfIs("***", "**", 0);
    assert "***"[2..] == "*";
    SplitWithoutSeparator("*", "**");
  }

  /** The first piece is followed by the first occurrence of the separator. */
  lemma FirstCut(s: string, sep: string, k: nat)
    requires sep != [] && IndexOf(s, sep) == Some(k)
    ensures CutsFirst(s[..k], sep)
  {
    var t := s[..k] + sep;
    SplitStep(s, sep, k);
    assert t == s[..k + |sep|];
    forall j: nat | j < k ensures !OccursAt(t, sep, j) {
      assert !OccursAt(s, sep, j);
      if j + |sep| <= |t| {
        assert t[j..j + |sep|] == s[j..j + |sep|];
      }
    }
    assert t[k..k + |sep|] == sep;
    IndexOfIs(t, sep, k);
  }

  lemma SplitStep(s: string, sep: string, k: nat)
    requires sep != [] && IndexOf(s, sep) == Some(k)
    ensures !Contains(s[..k], sep)
    ensures s == s[..k] + sep + s[k + |sep|..]
  {
    var head := s[..k];
    forall j: nat ensures !OccursAt(head, sep, j) {
      if j + |sep| <= |head| {
        assert head[j..j + |sep|] == s[j..j + |sep|];
        assert !OccursAt(s, sep, j);
      }
    }
    assert !Contains(head, sep);
    assert OccursAt(s, sep, k);
    Cut(s, k, k + |sep|);
    assert s[k..k + |sep|] == sep;
  }

  lemma Cut(s: string, i: nat, j: nat)
    requires i <= j <= |s|
    ensures s == s[..i] + s[i..j] + s[j..]
  {
  }

  /** Splitting text that does not contain the separator gives the text back alone. */
  lemma SplitWithoutSeparator(s: string, sep: string)
    requires sep != [] && !Contains(s, sep)
    ensures Split(s, sep) == [s]
  {
  }

  /** `toLowerCase` on one code point: ASCII and Latin-1 capitals map to their small
      letters, and so do the Turkish capitals Ğ and Ş; dotted capital İ becomes
      "i" followed by U+0307 COMBINING DOT ABOVE. */
  function LowerChar(c: char): (r: string)
    ensures |r| >= 1
    ensures IsSpace(c) ==> r == [c]
    ensures !IsSpace(c) ==> NoSpace(r)
  {
    if 'A' <= c <= 'Z' then [(c as int + 32) as char]
    else if '\U{00C0}' <= c <= '\U{00DE}' && c != '\U{00D7}' then [(c as int + 32) as char]
    else if c == '\U{011E}' then ['\U{011F}']
    else if c == '\U{015E}' then ['\U{015F}']
    else if c == '\U{0130}' then ['i', '\U{0307}']
    else [c]
  }

  /** `String.prototype.toLowerCase`, code point by code point. */
  function ToLower(s: string): string
  {
    if s == [] then [] else LowerChar(s[0]) + ToLower(s[1..])
  }

  lemma {:induction false} ToLowerAppend(a: string, b: string)
    ensures ToLower(a + b) == ToLower(a) + ToLower(b)
  {
    if a != [] {
      assert (a + b)[1..] == a[1..] + b;
      ToLowerAppend(a[1..], b);
    } else {
      assert a + b == b;
    }
  }

  /** Lower-casing neither creates nor removes whitespace, and keeps the empty string empty. */
  lemma {:induction false} ToLowerNoSpace(s: string)
    ensures NoSpace(s) <==> NoSpace(ToLower(s))
    ensures ToLower(s) == [] <==> s == []
  {
    if s != [] {
      ToLowerNoSpace(s[1..]);
      var h, t := LowerChar(s[0]), ToLower(s[1..]);
      assert ToLower(s) == h + t;
      if NoSpace(s) {
        assert NoSpace(s[1..]) by {
          forall i | 0 <= i < |s| - 1 ensures !IsSpace(s[1..][i]) {
            assert s[1..][i] == s[i + 1];
          }
        }
        forall i | 0 <= i < |h + t| ensures !IsSpace((h + t)[i]) {
          if i >= |h| {
            assert (h + t)[i] == t[i - |h|];
          }
        }
      } else {
        var i :| 0 <= i < |s| && IsSpace(s[i]);
        if i == 0 {
          assert (h + t)[0] == s[0];
        } else {
          assert IsSpace(s[1..][i - 1]);
          var j :| 0 <= j < |t| && IsSpace(t[j]);
          assert (h + t)[|h| + j] == t[j];
        }
      }
    }
  }

  /** Text none of whose characters lower-casing changes is its own lower case. */
  lemma {:induction false} LowerFixed(s: string)
    requires forall i :: 0 <= i < |s| ==> LowerChar(s[i]) == [s[i]]
    ensures ToLower(s) == s
  {
    if s != [] {
      LowerFixed(s[1..]);
    }
  }

  /** Whitespace is its own lower case. */
  lemma LowerOfSpace(s: string)
    requires AllSpace(s)
    ensures ToLower(s) == s
  {
    LowerFixed(s);
  }

  lemma NoSpaceAppend(a: string, b: string)
    ensures NoSpace(a + b) <==> NoSpace(a) && NoSpace(b)
  {
    if NoSpace(a) && NoSpace(b) {
      forall i | 0 <= i < |a + b| ensures !IsSpace((a + b)[i]) {
        if i >= |a| {
          assert (a + b)[i] == b[i - |a|];
        }
      }
    }
    if NoSpace(a + b) {
      forall i | 0 <= i < |a| ensures !IsSpace(a[i]) {
        assert (a + b)[i] == a[i];
      }
      forall i | 0 <= i < |b| ensures !IsSpace(b[i]) {
        assert (a + b)[|a| + i] == b[i];
      }
    }
  }

  /** Lower-casing text that does not begin or end with whitespace gives text that
      does not either. */
  lemma ToLowerTrimmed(t: string)
    requires Trimmed(t) && t != []
    ensures Trimmed(ToLower(t)) && ToLower(t) != []
  {
    LowerFirst(t);
    LowerLast(t);
    var first, last := LowerChar(t[0]), LowerChar(t[|t| - 1]);
    assert !IsSpace(first[0]) && !IsSpace(last[|last| - 1]);
  }

  /** The lower case of a non-empty text starts with the lower case of its first character. */
  lemma LowerFirst(t: string)
    requires t != []
    ensures ToLower(t) != [] && ToLower(t)[0] == LowerChar(t[0])[0]
  {
    assert ToLower(t) == LowerChar(t[0]) + ToLower(t[1..]);
  }

  /** The lower case of a non-empty text ends with the lower case of its last character. */
  lemma LowerLast(t: string)
    requires t != []
    ensures var l := LowerChar(t[|t| - 1]);
            |ToLower(t)| >= |l| && ToLower(t)[|ToLower(t)| - 1] == l[|l| - 1]
  {
    var init, last := t[..|t| - 1], t[|t| - 1];
    assert t == init + [last];
    ToLowerAppend(init, [last]);
    assert ToLower([last]) == LowerChar(last) + ToLower([]);
  }

  /** `trim` and `toLowerCase` commute: lower-casing maps whitespace to itself and
      everything else to non-whitespace, so the order of the two setters of a
      schema field does not matter. */
  lemma TrimLowerCommute(s: string)
    ensures Trim(ToLower(s)) == ToLower(Trim(s))
  {
    TrimSides(s);
    var p, t, q := s[..TrimLo(s)], Trim(s), s[TrimHi(s)..];
    ToLowerAppend(p + t, q);
    ToLowerAppend(p, t);
    LowerOfSpace(p);
    LowerOfSpace(q);
    assert ToLower(s) == p + ToLower(t) + q;
    if t == [] {
      assert ToLower(s) == p + q;
      AllSpaceAppend(p, q);
    } else {
      ToLowerTrimmed(t);
      TrimUnique(p, ToLower(t), q);
    }
  }
}
