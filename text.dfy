/**
 * The few Python string operations both scripts rely on, over `string` (= seq<char>):
 * `str.isspace`, `strip`/`rstrip`, `lower`, single-character `replace`, `"\n".join`,
 * reading a text file line by line, and the ordering of `str` values.
 */
module Text {

  /** Python's `str.isspace`: the six C0 space characters, the four information
    * separators, the space, and the Unicode white space characters. */
  predicate IsSpace(c: char) {
    ('\t' <= c <= '\r') || ('\U{001C}' <= c <= '\U{001F}') || c == ' '
    || c == '\U{0085}' || c == '\U{00A0}' || c == '\U{1680}'
    || ('\U{2000}' <= c <= '\U{200A}') || c == '\U{2028}' || c == '\U{2029}'
    || c == '\U{202F}' || c == '\U{205F}' || c == '\U{3000}'
  }

  /** `s.rstrip()`: drop trailing white space. */
  function RStrip(s: string): (r: string)
    ensures |r| <= |s| && r == s[..|r|]
    ensures r == [] || !IsSpace(r[|r| - 1])
    ensures forall i :: |r| <= i < |s| ==> IsSpace(s[i])
  {
    if s == [] || !IsSpace(s[|s| - 1]) then s else RStrip(s[..|s| - 1])
  }

  /** `s.lstrip()`: drop leading white space. */
  function LStrip(s: string): (r: string)
    ensures |r| <= |s| && r == s[|s| - |r|..]
    ensures r == [] || !IsSpace(r[0])
    ensures forall i :: 0 <= i < |s| - |r| ==> IsSpace(s[i])
  {
    if s == [] || !IsSpace(s[0]) then s else LStrip(s[1..])
  }

  /** `s.strip()`. */
  function Strip(s: string): (r: string)
    ensures r == [] || (!IsSpace(r[0]) && !IsSpace(r[|r| - 1]))
  {
    LStrip(RStrip(s))
  }

  /** A string with no white space at either end is left alone by `strip()`. */
  lemma StripTrimmed(s: string)
    requires s == [] || (!IsSpace(s[0]) && !IsSpace(s[|s| - 1]))
    ensures Strip(s) == s
  {
  }

  /** Stripping twice strips nothing more. */
  lemma RStripIdempotent(s: string)
    ensures RStrip(RStrip(s)) == RStrip(s)
  {
  }

  /** A string that does not end in white space is left alone by `rstrip()`. */
  lemma NoTrailingSpace(s: string)
    requires s == [] || !IsSpace(s[|s| - 1])
    ensures RStrip(s) == s
  {
  }

  lemma TrailingSpaceIsStripped(s: string)
    requires s != [] && IsSpace(s[|s| - 1])
    ensures RStrip(s) != s
  {
  }

  /** `c.lower()` on the ASCII letters; every other character is kept. */
  function LowerChar(c: char): char {
    if 'A' <= c <= 'Z' then (c as int + 32) as char else c
  }

  /** `s.lower()`, character by character. */
  function Lower(s: string): (r: string)
    ensures |r| == |s|
    ensures forall i :: 0 <= i < |s| ==> r[i] == LowerChar(s[i])
  {
    if s == [] then [] else [LowerChar(s[0])] + Lower(s[1..])
  }

  /** `s.replace(a, b)` for one-character `a` and `b`. */
  function Replace(s: string, a: char, b: char): (r: string)
    ensures |r| == |s|
    ensures forall i :: 0 <= i < |s| ==> r[i] == (if s[i] == a then b else s[i])
  {
    if s == [] then [] else [if s[0] == a then b else s[0]] + Replace(s[1..], a, b)
  }

  /** `"\n".join(lines)`. */
  function JoinLines(lines: seq<string>): string {
    if lines == [] then []
    else if |lines| == 1 then lines[0]
    else lines[0] + "\n" + JoinLines(lines[1..])
  }

  /** What `f.write("\n".join(lines) + "\n")` leaves in a file. */
  function Written(lines: seq<string>): string {
    JoinLines(lines) + "\n"
  }

  /** Reading in text mode turns "\r\n" and a lone "\r" into "\n" (universal newlines). */
  function Translate(t: string): (r: string)
    ensures '\r' !in t ==> r == t
  {
    if t == [] then []
    else if t[0] == '\r' && |t| > 1 && t[1] == '\n' then "\n" + Translate(t[2..])
    else if t[0] == '\r' then "\n" + Translate(t[1..])
    else [t[0]] + Translate(t[1..])
  }

  /** Length of the first line of `t`, its "\n" included when there is one. */
  function FirstLineLength(t: string): (n: nat)
    requires t != []
    ensures 1 <= n <= |t|
    ensures '\n' !in t[..n - 1]
    ensures n < |t| ==> t[n - 1] == '\n'
  {
    if t[0] == '\n' || |t| == 1 then 1 else 1 + FirstLineLength(t[1..])
  }

  /** The lines `for line in f` yields: each ends in "\n" except perhaps the last. */
  function SplitLines(t: string): (r: seq<string>)
    decreases |t|
  {
    if t == [] then []
    else
      var n := FirstLineLength(t);
      [t[..n]] + SplitLines(t[n..])
  }

  /** `[line.rstrip() for line in f]` for a file holding `text`. */
  function ReadLines(text: string): seq<string> {
    var raw := SplitLines(Translate(text));
    seq(|raw|, i requires 0 <= i < |raw| => RStrip(raw[i]))
  }

  /** Every line read back has already lost its trailing white space. */
  lemma ReadLinesStripped(text: string)
    ensures forall k :: 0 <= k < |ReadLines(text)| ==> RStrip(ReadLines(text)[k]) == ReadLines(text)[k]
  {
    var raw := SplitLines(Translate(text));
    forall k | 0 <= k < |raw|
      ensures RStrip(RStrip(raw[k])) == RStrip(raw[k])
    {
      RStripIdempotent(raw[k]);
    }
  }

  /** A line that survives the write/read-back cycle: no line break, no trailing white space. */
  predicate CleanLine(l: string) {
    '\n' !in l && '\r' !in l && RStrip(l) == l
  }

  lemma {:induction false} JoinNoCarriageReturn(lines: seq<string>)
    requires forall k :: 0 <= k < |lines| ==> '\r' !in lines[k]
    ensures '\r' !in JoinLines(lines)
  {
    if |lines| > 1 {
      JoinNoCarriageReturn(lines[1..]);
    }
  }

  /** A clean line followed by "\n" is split off whole. */
  lemma {:induction false} FirstLineOf(l: string, rest: string)
    requires '\n' !in l
    ensures FirstLineLength(l + "\n" + rest) == |l| + 1
  {
    if l != [] {
      assert (l + "\n" + rest)[1..] == l[1..] + "\n" + rest;
      FirstLineOf(l[1..], rest);
    }
  }

  /** A line without "\n" followed by "\n" is the first line read. */
  lemma SplitAfterLine(l: string, rest: string)
    requires '\n' !in l
    ensures SplitLines(l + "\n" + rest) == [l + "\n"] + SplitLines(rest)
  {
    var t := l + "\n" + rest;
    FirstLineOf(l, rest);
    assert t[..|l| + 1] == l + "\n";
    assert t[|l| + 1..] == rest;
  }

  /** Reading a line in front of text whose lines are `more` gives that line, then `more`. */
  lemma SplitStep(l: string, rest: string, more: seq<string>)
    requires '\n' !in l
    requires var raw := SplitLines(rest);
      |raw| == |more| && forall k :: 0 <= k < |more| ==> raw[k] == more[k] + "\n"
    ensures var raw := SplitLines(l + "\n" + rest);
      |raw| == |[l] + more| && forall k :: 0 <= k < |raw| ==> raw[k] == ([l] + more)[k] + "\n"
  {
    SplitAfterLine(l, rest);
  }

  lemma {:induction false} SplitWritten(lines: seq<string>)
    requires lines != []
    requires forall k :: 0 <= k < |lines| ==> '\n' !in lines[k]
    ensures var raw := SplitLines(Written(lines));
      |raw| == |lines| && forall k :: 0 <= k < |lines| ==> raw[k] == lines[k] + "\n"
  {
    var more := lines[1..];
    var rest := if |lines| == 1 then [] else Written(more);
    assert Written(lines) == lines[0] + "\n" + rest;
    if |lines| > 1 {
      SplitWritten(more);
    }
    SplitStep(lines[0], rest, if |lines| == 1 then [] else more);
    assert lines == [lines[0]] + more;
  }

  /** Writing `"\n".join(lines) + "\n"` and reading it back line by line with `rstrip`
    * gives the same lines back, provided there is at least one line and every line is clean. */
  lemma WriteReadRoundTrip(lines: seq<string>)
    requires lines != []
    requires forall k :: 0 <= k < |lines| ==> CleanLine(lines[k])
    ensures ReadLines(Written(lines)) == lines
  {
    var t := Written(lines);
    JoinNoCarriageReturn(lines);
    assert '\r' !in t;
    assert Translate(t) == t;
    SplitWritten(lines);
    var raw := SplitLines(t);
    assert |raw| == |lines|;
    var r := ReadLines(t);
    forall k | 0 <= k < |lines|
      ensures r[k] == lines[k]
    {
      RStripNewline(lines[k]);
    }
  }

  lemma RStripNewline(l: string)
    requires RStrip(l) == l
    ensures RStrip(l + "\n") == l
  {
    assert (l + "\n")[..|l|] == l;
  }

  /** Python's `a < b` on `str`: lexicographic by code point, a proper prefix first. */
  predicate Less(a: string, b: string) {
    if a == [] then b != []
    else if b == [] then false
    else if a[0] != b[0] then a[0] < b[0]
    else Less(a[1..], b[1..])
  }

  lemma {:induction false} LessIrreflexive(a: string)
    ensures !Less(a, a)
  {
    if a != [] {
      LessIrreflexive(a[1..]);
    }
  }

  lemma {:induction false} LessAsymmetric(a: string, b: string)
    requires Less(a, b)
    ensures !Less(b, a)
  {
    if a != [] && b != [] && a[0] == b[0] {
      LessAsymmetric(a[1..], b[1..]);
    }
  }

  lemma {:induction false} LessTransitive(a: string, b: string, c: string)
    requires Less(a, b) && Less(b, c)
    ensures Less(a, c)
  {
    if a != [] && a[0] == b[0] && b[0] == c[0] {
      LessTransitive(a[1..], b[1..], c[1..]);
    }
  }

  /** Two different strings are always ordered one way or the other. */
  lemma {:induction false} LessTotal(a: string, b: string)
    requires a != b
    ensures Less(a, b) || Less(b, a)
  {
    if a != [] && b != [] && a[0] == b[0] {
      assert a == [a[0]] + a[1..] && b == [b[0]] + b[1..];
      LessTotal(a[1..], b[1..]);
    }
  }

  /** "Not less than" is transitive: it is the `>=` a descending sort keeps. */
  lemma NotLessTransitive(a: string, b: string, c: string)
    requires !Less(a, b) && !Less(b, c)
    ensures !Less(a, c)
  {
    if Less(a, c) {
      if a == b {
      } else if b == c {
      } else {
        LessTotal(a, b);
        LessTotal(b, c);
        LessTransitive(b, a, c);
        LessAsymmetric(b, c);
      }
    }
  }
}
