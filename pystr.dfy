/**
 The parts of Python's `str` that the bot relies on: `str.split()` with no
 argument (runs of whitespace separate tokens), `str.lower()` as far as it
 matters for comparing against an ASCII literal, and `s[k:]` slicing. The
 bot never splits on a separator; `SplitOn` and `Find` are here only to
 read the help reply line by line.
 */
module PyStr {

  /** Python's `str.isspace()` on one code point, which is what `str.split()`
      with no argument splits on: the ASCII separators \t \n \v \f \r, the
      information separators 0x1C-0x1F, the space, and the Unicode spaces. */
  predicate IsSpace(c: char) {
    || c == ' '
    || '\t' <= c <= '\r'
    || '\U{1C}' <= c <= '\U{1F}'
    || c == '\U{85}'
    || c == '\U{A0}'
    || c == '\U{1680}'
    || '\U{2000}' <= c <= '\U{200A}'
    || c == '\U{2028}'
    || c == '\U{2029}'
    || c == '\U{202F}'
    || c == '\U{205F}'
    || c == '\U{3000}'
  }

  /** A token of `str.split()`: non-empty and free of whitespace. */
  predicate IsToken(t: string) {
    t != [] && forall i :: 0 <= i < |t| ==> !IsSpace(t[i])
  }

  /** Number of whitespace characters at the start of `s`. */
  function LeadingSpace(s: string): (n: nat)
    ensures n <= |s|
    ensures forall i :: 0 <= i < n ==> IsSpace(s[i])
    ensures n < |s| ==> !IsSpace(s[n])
  {
    if s == [] || !IsSpace(s[0]) then 0 else 1 + LeadingSpace(s[1..])
  }

  /** Number of non-whitespace characters at the start of `s`. */
  function TokenLength(s: string): (n: nat)
    ensures n <= |s|
    ensures forall i :: 0 <= i < n ==> !IsSpace(s[i])
    ensures n < |s| ==> IsSpace(s[n])
  {
    if s == [] || IsSpace(s[0]) then 0 else 1 + TokenLength(s[1..])
  }

  /** `s.split()`: the maximal runs of non-whitespace characters, in order. */
  function Split(s: string): (r: seq<string>)
    decreases |s|
  {
    if s == [] then []
    else if IsSpace(s[0]) then Split(s[1..])
    else
      var n := TokenLength(s);
      [s[..n]] + Split(s[n..])
  }

  /** `" ".join(ts)`. */
  function Join(ts: seq<string>): string {
    if ts == [] then ""
    else if |ts| == 1 then ts[0]
    else ts[0] + " " + Join(ts[1..])
  }

  /** `str.lower()` on one character, restricted to ASCII letters. */
  function LowerChar(c: char): char {
    if 'A' <= c <= 'Z' then (c as int + 32) as char else c
  }

  function Lower(s: string): (r: string)
    ensures |r| == |s|
    ensures forall i :: 0 <= i < |s| ==> r[i] == LowerChar(s[i])
  {
    seq(|s|, i requires 0 <= i < |s| => LowerChar(s[i]))
  }

  /** Python's `s[k:]` for `k >= 0`: empty when `k` is past the end. */
  function SliceFrom(s: string, k: nat): (r: string)
    ensures k <= |s| ==> s == s[..k] + r
    ensures k >= |s| ==> r == ""
  {
    if k <= |s| then s[k..] else ""
  }

  /** Index of the last occurrence of `c` in `s`, or -1 (Python's `str.rfind`). */
  function RFind(s: string, c: char): (i: int)
    ensures -1 <= i < |s|
  {
    if s == [] then -1
    else if s[|s| - 1] == c then |s| - 1
    else RFind(s[..|s| - 1], c)
  }

  /** Index of the first occurrence of `c` in `s`, or |s| when there is none. */
  function Find(s: string, c: char): (i: nat)
    ensures i <= |s|
  {
    if s == [] || s[0] == c then 0 else 1 + Find(s[1..], c)
  }

  /** `RFind` finds a `c` after which no `c` follows, and -1 only when there
      is no `c` at all. */
  lemma {:induction false} RFindSpec(s: string, c: char)
    ensures var i := RFind(s, c);
      (i >= 0 ==> s[i] == c) && forall j :: i < j < |s| ==> s[j] != c
  {
    if s != [] && s[|s| - 1] != c {
      RFindSpec(s[..|s| - 1], c);
    }
  }

  /** `Find` stops at the first `c`, and at |s| only when there is none. */
  lemma {:induction false} FindSpec(s: string, c: char)
    ensures var i := Find(s, c);
      (i < |s| ==> s[i] == c) && forall j :: 0 <= j < i ==> s[j] != c
  {
    if s != [] && s[0] != c {
      FindSpec(s[1..], c);
    }
  }

  /** `s.split(sep)` for a one-character separator: the pieces between the
      separators, always one more piece than there are separators. */
  function SplitOn(s: string, sep: char): seq<string>
    decreases |s|
  {
    var i := Find(s, sep);
    if i == |s| then [s] else [s[..i]] + SplitOn(s[i + 1..], sep)
  }

  /** Splitting after a separator-free prefix peels that prefix off as a piece. */
  lemma SplitOnCons(x: string, sep: char, y: string)
    requires sep !in x
    ensures SplitOn(x + [sep] + y, sep) == [x] + SplitOn(y, sep)
  {
    var s := x + [sep] + y;
    assert s == x + ([sep] + y);
    FindPastPrefix(x, sep, [sep] + y);
    assert s[..|x|] == x;
    assert s[|x| + 1..] == y;
  }

  lemma {:induction false} FindPastPrefix(x: string, sep: char, y: string)
    requires sep !in x
    requires y != [] && y[0] == sep
    ensures Find(x + y, sep) == |x|
  {
    if x != [] {
      assert (x + y)[1..] == x[1..] + y;
      FindPastPrefix(x[1..], sep, y);
    } else {
      assert x + y == y;
    }
  }

  /** `.split()` gives back what `" ".join` put together: tokens survive a
      join with single spaces unchanged, in order. */
  lemma {:induction false} SplitJoin(ts: seq<string>)
    requires forall i :: 0 <= i < |ts| ==> IsToken(ts[i])
    ensures Split(Join(ts)) == ts
  {
    if ts == [] {
    } else {
      var t := ts[0];
      var rest := Join(ts[1..]);
      var s := Join(ts);
      TokenLengthOfToken(t, if |ts| == 1 then "" else " " + rest);
      if |ts| == 1 {
        assert s == t + "";
        assert LeadingSpace(s) == 0;
        assert s[0..|t|] == t;
        assert s[|t|..] == [];
      } else {
        assert s == t + (" " + rest);
        assert LeadingSpace(s) == 0;
        assert s[0..|t|] == t;
        assert s[|t|..] == " " + rest;
        SplitJoin(ts[1..]);
        SplitSkipsSpace(" ", rest);
      }
    }
  }

  /** A token followed by nothing or by whitespace is read whole. */
  lemma {:induction false} TokenLengthOfToken(t: string, after: string)
    requires IsToken(t)
    requires after == [] || IsSpace(after[0])
    ensures TokenLength(t + after) == |t|
  {
    if |t| > 1 {
      assert (t + after)[1..] == t[1..] + after;
      TokenLengthOfToken(t[1..], after);
    } else {
      assert (t + after)[1..] == after;
    }
  }

  /** Leading whitespace does not change `split()`. */
  lemma {:induction false} SplitSkipsSpace(w: string, s: string)
    requires forall i :: 0 <= i < |w| ==> IsSpace(w[i])
    ensures Split(w + s) == Split(s)
  {
    if w != [] {
      assert (w + s)[1..] == w[1..] + s;
      SplitSkipsSpace(w[1..], s);
    } else {
      assert w + s == s;
    }
  }

  lemma {:induction false} LeadingSpaceAfter(w: string, s: string)
    requires forall i :: 0 <= i < |w| ==> IsSpace(w[i])
    ensures LeadingSpace(w + s) == |w| + LeadingSpace(s)
  {
    if w != [] {
      assert (w + s)[1..] == w[1..] + s;
      LeadingSpaceAfter(w[1..], s);
    } else {
      assert w + s == s;
    }
  }

  /** Every piece `split()` returns is a token. */
  lemma {:induction false} SplitTokens(s: string)
    ensures forall i :: 0 <= i < |Split(s)| ==> IsToken(Split(s)[i])
    decreases |s|
  {
    if s == [] {
    } else if IsSpace(s[0]) {
      SplitTokens(s[1..]);
    } else {
      var n := TokenLength(s);
      SplitTokens(s[n..]);
      assert IsToken(s[..n]);
    }
  }

  /** `split()` finds a first token exactly when `s` is not all whitespace;
      that token starts after the leading whitespace and runs up to the next
      whitespace, and the other tokens are those of the text after it. */
  lemma SplitFirst(s: string)
    ensures Split(s) == [] <==> LeadingSpace(s) == |s|
    ensures LeadingSpace(s) < |s| ==>
      var k := LeadingSpace(s);
      var n := TokenLength(s[k..]);
      Split(s) == [s[k..k + n]] + Split(s[k + n..])
  {
    var k := LeadingSpace(s);
    SplitAfterSpace(s);
    if k < |s| {
      SplitAtToken(s, k);
      var n := TokenLength(s[k..]);
      assert Split(s) == [s[k..k + n]] + Split(s[k + n..]);
    } else {
      assert s[k..] == [];
    }
  }

  /** `split()` ignores the leading whitespace. */
  lemma SplitAfterSpace(s: string)
    ensures Split(s) == Split(s[LeadingSpace(s)..])
  {
    var k := LeadingSpace(s);
    assert s == s[..k] + s[k..];
    SplitSkipsSpace(s[..k], s[k..]);
  }

  /** Text that has a token at position k splits, from k on, into that token
      and the tokens of the rest. */
  lemma SplitAtToken(s: string, k: nat)
    requires k < |s| && !IsSpace(s[k])
    ensures var n := TokenLength(s[k..]);
      Split(s[k..]) == [s[k..k + n]] + Split(s[k + n..])
  {
    var t := s[k..];
    var n := TokenLength(t);
    assert t[..n] == s[k..k + n];
    assert t[n..] == s[k + n..];
  }
}
