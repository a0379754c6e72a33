/** The handful of Python `str` operations the downloader relies on:
    `strip()`, `lower()`, `split(sep)`, `split(sep, 1)` and `in`. */
module Text {
  import opened Common

  /** Python's `str.isspace` for one code point: the ASCII separators
      (tab, line feed, vertical tab, form feed, carriage return, the four
      information separators 0x1C-0x1F, space), NEL, NBSP and the Unicode
      space separators and line/paragraph separators. */
  predicate IsSpace(c: char)
  {
    var n := c as int;
    (9 <= n <= 13) || (28 <= n <= 32) || n == 0x85 || n == 0xA0 || n == 0x1680
    || (0x2000 <= n <= 0x200A) || n == 0x2028 || n == 0x2029 || n == 0x202F
    || n == 0x205F || n == 0x3000
  }

  /** `s.lstrip()`: drops the leading white space and nothing else. */
  function TrimLeft(s: string): (r: string)
    ensures |r| <= |s| && r == s[|s| - |r|..]
    ensures forall i :: 0 <= i < |s| - |r| ==> IsSpace(s[i])
    ensures r == [] || !IsSpace(r[0])
  {
    if s != [] && IsSpace(s[0]) then TrimLeft(s[1..]) else s
  }

  /** `s.rstrip()`: drops the trailing white space and nothing else. */
  function TrimRight(s: string): (r: string)
    ensures |r| <= |s| && r == s[..|r|]
    ensures forall i :: |r| <= i < |s| ==> IsSpace(s[i])
    ensures r == [] || !IsSpace(r[|r| - 1])
  {
    if s != [] && IsSpace(s[|s| - 1]) then TrimRight(s[..|s| - 1]) else s
  }

  /** `s.strip()`: the longest infix of `s` that neither starts nor ends with
      white space, obtained by removing only white space on either side. */
  function Strip(s: string): (r: string)
    ensures r == [] || (!IsSpace(r[0]) && !IsSpace(r[|r| - 1]))
    ensures var k := |s| - |TrimLeft(s)|;
      k + |r| <= |s| && r == s[k..k + |r|]
      && (forall i :: 0 <= i < k ==> IsSpace(s[i]))
      && (forall i :: k + |r| <= i < |s| ==> IsSpace(s[i]))
  {
    TrimRight(TrimLeft(s))
  }

  /** A string that has no white space at either end is its own `strip()`. */
  lemma {:induction false} StripTrimmed(s: string)
    requires s == [] || (!IsSpace(s[0]) && !IsSpace(s[|s| - 1]))
    ensures Strip(s) == s
  {
    assert TrimLeft(s) == s;
    assert TrimRight(s) == s;
  }

  /** `lower()` of one code point of the Latin-1 range, which is the whole
      range of HTTP header text as Python's HTTP client decodes it: the ASCII
      capitals and the Latin-1 capitals U+00C0-U+00DE except the
      multiplication sign U+00D7 move up by 32; everything else is kept. */
  function LowerChar(c: char): char
  {
    if 'A' <= c <= 'Z' || ('À' <= c <= 'Þ' && c != '×') then
      (c as int + 32) as char
    else
      c
  }

  /** A code point that `lower()` leaves as it is. */
  predicate IsLower(c: char)
  {
    LowerChar(c) == c
  }

  /** `s.lower()`, code point by code point. */
  function Lower(s: string): (r: string)
    ensures |r| == |s|
    ensures forall i :: 0 <= i < |s| ==> r[i] == LowerChar(s[i])
  {
    seq(|s|, i requires 0 <= i < |s| => LowerChar(s[i]))
  }

  /** Lowering twice is lowering once, and lowering keeps white space where it
      was: both hold because a lowered code point is never a capital and no
      capital is white space. */
  lemma LowerIdempotent(s: string)
    ensures Lower(Lower(s)) == Lower(s)
    ensures forall i :: 0 <= i < |s| ==> (IsSpace(Lower(s)[i]) <==> IsSpace(s[i]))
  {
  }

  /** A string without capitals is its own `lower()`. */
  lemma LowerOfLower(s: string)
    requires forall i :: 0 <= i < |s| ==> IsLower(s[i])
    ensures Lower(s) == s
  {
  }

  /** The index of the first occurrence of `c` in `s`. */
  function IndexOfChar(s: string, c: char): (i: nat)
    requires c in s
    ensures i < |s| && s[i] == c && c !in s[..i]
  {
    if s[0] == c then 0 else 1 + IndexOfChar(s[1..], c)
  }

  /** The inverse of `SplitOn`: `sep.join(parts)`. */
  function Join(parts: seq<string>, sep: char): string
  {
    if |parts| <= 1 then (if parts == [] then [] else parts[0])
    else parts[0] + [sep] + Join(parts[1..], sep)
  }

  /** `s.split(sep)` for a one-character separator: at least one piece (the
      empty string splits into `[""]`), no piece contains the separator, and
      joining the pieces with the separator gives back `s`. */
  function SplitOn(s: string, sep: char): (parts: seq<string>)
    ensures |parts| >= 1
    ensures forall k :: 0 <= k < |parts| ==> sep !in parts[k]
    ensures Join(parts, sep) == s
    decreases |s|
  {
    if sep !in s then [s]
    else
      var i := IndexOfChar(s, sep);
      var rest := SplitOn(s[i + 1..], sep);
      assert s == s[..i] + [sep] + s[i + 1..];
      [s[..i]] + rest
  }

  /** `s.split(sep, 1)` for a one-character separator: `Some(head)` and the
      text after the first separator when there is one, `None` and the whole
      string otherwise. */
  function SplitFirst(s: string, sep: char): (r: (Option<string>, string))
    ensures r.0.None? <==> sep !in s
    ensures r.0.None? ==> r.1 == s
    ensures r.0.Some? ==> s == r.0.value + [sep] + r.1 && sep !in r.0.value
  {
    if sep !in s then (None, s)
    else
      var i := IndexOfChar(s, sep);
      assert s == s[..i] + [sep] + s[i + 1..];
      (Some(s[..i]), s[i + 1..])
  }

  /** Splitting at the first separator is undone by putting it back: the
      head before a separator that does not occur in it is the head that
      `split(sep, 1)` finds. */
  lemma SplitFirstAt(h: string, sep: char, t: string)
    requires sep !in h
    ensures SplitFirst(h + [sep] + t, sep) == (Some(h), t)
  {
    var s := h + [sep] + t;
    var i := IndexOfChar(s, sep);
    assert s[..|h|] == h;
    assert i == |h| by {
      assert s[|h|] == sep;
      assert forall j :: 0 <= j < |h| ==> s[j] == h[j];
    }
    assert s[i + 1..] == t;
  }

  /** `pat` occurs in `s` starting at index `i`. */
  predicate OccursAt(s: string, pat: string, i: nat)
  {
    i + |pat| <= |s| && s[i..i + |pat|] == pat
  }

  /** `pat in s`: `pat` occurs somewhere in `s`. */
  function Contains(s: string, pat: string): (r: bool)
    ensures r <==> exists i: nat :: OccursAt(s, pat, i)
    decreases |s|
  {
    if |s| < |pat| then false
    else if s[..|pat|] == pat then assert OccursAt(s, pat, 0); true
    else
      var r := Contains(s[1..], pat);
      assert forall i: nat :: OccursAt(s, pat, i + 1) <==> OccursAt(s[1..], pat, i) by {
        forall i: nat ensures OccursAt(s, pat, i + 1) <==> OccursAt(s[1..], pat, i) {
          if i + 1 + |pat| <= |s| {
            var a, b := s[1..][i..i + |pat|], s[i + 1..i + 1 + |pat|];
            assert forall k | 0 <= k < |pat| :: a[k] == b[k];
            assert a == b;
          }
        }
      }
      assert !OccursAt(s, pat, 0);
      assert forall i: nat :: OccursAt(s, pat, i) ==> i > 0 && OccursAt(s[1..], pat, i - 1);
      r
  }
}
