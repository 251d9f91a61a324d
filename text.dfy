/**
 * The JavaScript string operations the app relies on, over Dafny strings (sequences of
 * Unicode scalar values): `trim`, the `\s` class, ASCII `toLowerCase`, `includes`,
 * `String(n)` for integers, and the two regular-expression splits the notes editor uses.
 */
module Text {
  import Seqs

  /** JavaScript's WhiteSpace and LineTerminator characters outside the `U+2000`..`U+200A` block. */
  const SPACES: set<char> := {
    '\t', '\n', '\U{000B}', '\U{000C}', '\r', ' ', '\U{00A0}', '\U{1680}',
    '\U{2028}', '\U{2029}', '\U{202F}', '\U{205F}', '\U{3000}', '\U{FEFF}'
  }

  /** What `trim` removes and `\s` matches. */
  predicate IsSpace(c: char) {
    c in SPACES || ('\U{2000}' <= c <= '\U{200A}')
  }

  /** Every character is white space (this includes the empty string). */
  predicate IsBlank(s: string) {
    forall i :: 0 <= i < |s| ==> IsSpace(s[i])
  }

  function TrimStart(s: string): (r: string)
    ensures |r| <= |s| && r == s[|s| - |r|..]
    ensures |r| > 0 ==> !IsSpace(r[0])
    ensures forall i :: 0 <= i < |s| - |r| ==> IsSpace(s[i])
  {
    if |s| > 0 && IsSpace(s[0]) then TrimStart(s[1..]) else s
  }

  function TrimEnd(s: string): (r: string)
    ensures |r| <= |s| && r == s[..|r|]
    ensures |r| > 0 ==> !IsSpace(r[|r| - 1])
    ensures forall i :: |r| <= i < |s| ==> IsSpace(s[i])
  {
    if |s| > 0 && IsSpace(s[|s| - 1]) then TrimEnd(s[..|s| - 1]) else s
  }

  /** `s.trim()`: `s` without its leading and trailing white space. */
  function Trim(s: string): (r: string)
    ensures |r| <= |s|
    ensures |r| > 0 ==> !IsSpace(r[0]) && !IsSpace(r[|r| - 1])
  {
    var t := TrimStart(s);
    var r := TrimEnd(t);
    assert |r| > 0 ==> r[0] == t[0];
    r
  }

  lemma {:induction false} TrimBlank(s: string)
    ensures Trim(s) == "" <==> IsBlank(s)
  {
    if IsBlank(s) {
      BlankTrimStart(s);
    } else if Trim(s) == "" {
      TrimEmptyBlank(s);
    }
  }

  /** All of a string that trims to nothing is white space. */
  lemma {:induction false} TrimEmptyBlank(s: string)
    requires Trim(s) == ""
    ensures IsBlank(s)
  {
    assert TrimEnd(TrimStart(s)) == "";
  }

  lemma {:induction false} BlankTrimStart(s: string)
    requires IsBlank(s)
    ensures TrimStart(s) == ""
  {
    if |s| > 0 {
      BlankTrimStart(s[1..]);
    }
  }

  /** A string that starts and ends with a visible character is its own trim. */
  lemma {:induction false} TrimUnchanged(s: string)
    requires |s| > 0 && !IsSpace(s[0]) && !IsSpace(s[|s| - 1])
    ensures Trim(s) == s
  {
    assert TrimStart(s) == s;
    assert TrimEnd(s) == s;
  }

  /** Trimming twice is trimming once. */
  lemma {:induction false} TrimIdempotent(s: string)
    ensures Trim(Trim(s)) == Trim(s)
  {
    var r := Trim(s);
    assert TrimStart(r) == r;
    assert TrimEnd(r) == r;
  }

  function LowerChar(c: char): char {
    if 'A' <= c <= 'Z' then (c as int + 32) as char else c
  }

  /** `s.toLowerCase()`, for the ASCII letters. */
  function Lower(s: string): (r: string)
    ensures |r| == |s|
    ensures forall i :: 0 <= i < |s| ==> r[i] == LowerChar(s[i])
  {
    seq(|s|, i requires 0 <= i < |s| => LowerChar(s[i]))
  }

  /** `hay.includes(needle)`. */
  predicate Contains(hay: string, needle: string) {
    exists i :: 0 <= i <= |hay| - |needle| && OccursAt(hay, needle, i)
  }

  /** `needle` occurs in `hay` starting at position `i`. */
  predicate OccursAt(hay: string, needle: string, i: int) {
    0 <= i <= |hay| - |needle| && hay[i..i + |needle|] == needle
  }

  function Digit(d: nat): char
    requires d < 10
  {
    "0123456789"[d]
  }

  /** `String(n)` for a non-negative integer: its decimal digits, without leading zeros. */
  function NatToString(n: nat): (r: string)
    ensures |r| > 0
    ensures (|r| == 1) <==> (n < 10)
  {
    if n < 10 then [Digit(n)] else NatToString(n / 10) + [Digit(n % 10)]
  }

  /** `String(i)` for any integer. */
  function IntToString(i: int): (r: string)
    ensures |r| > 0
  {
    if i < 0 then "-" + NatToString(-i) else NatToString(i)
  }

  lemma {:induction false} NatToStringInjective(a: nat, b: nat)
    requires NatToString(a) == NatToString(b)
    ensures a == b
  {
    if a >= 10 && b >= 10 {
      var sa, sb := NatToString(a / 10), NatToString(b / 10);
      assert sa + [Digit(a % 10)] == sb + [Digit(b % 10)];
      assert |sa| == |sb|;
      assert sa == (sa + [Digit(a % 10)])[..|sa|];
      assert sb == (sb + [Digit(b % 10)])[..|sb|];
      NatToStringInjective(a / 10, b / 10);
      assert Digit(a % 10) == Digit(b % 10);
    }
  }

  /** `x => x === c`. */
  function IsChar(c: char): char -> bool {
    (x: char) => x == c
  }

  /** Number of occurrences of `c` in `s`. */
  function CountChar(s: string, c: char): (n: nat)
    ensures n <= |s|
  {
    Seqs.CountWhere(s, IsChar(c))
  }

  /** `c` occurs nowhere exactly when it is counted zero times. */
  lemma {:induction false} CountCharZero(s: string, c: char)
    ensures CountChar(s, c) == 0 <==> c !in s
  {
    if |s| > 0 {
      CountCharZero(s[1..], c);
      assert s == [s[0]] + s[1..];
    }
  }

  /**
   * `s.split(/\r?\n/)`: the pieces between line breaks, where a line break is `\n`
   * or the pair `\r\n`.
   */
  function SplitLines(s: string): (r: seq<string>)
    ensures |r| > 0
    decreases |s|
  {
    if '\n' !in s then [s]
    else
      var i := Seqs.FirstIndex(s, '\n');
      [LineBefore(s, i)] + SplitLines(s[i + 1..])
  }

  /** The line that ends at the line feed at `i`, without the carriage return before it. */
  function LineBefore(s: string, i: nat): string
    requires i <= |s|
  {
    if i > 0 && s[i - 1] == '\r' then s[..i - 1] else s[..i]
  }

  /** One line per line break, plus one. */
  lemma {:induction false} SplitLinesCount(s: string)
    ensures |SplitLines(s)| == 1 + CountChar(s, '\n')
    decreases |s|
  {
    if '\n' in s {
      var i := Seqs.FirstIndex(s, '\n');
      assert s == s[..i] + s[i..];
      Seqs.CountWhereAppend(s[..i], s[i..], IsChar('\n'));
      CountCharZero(s[..i], '\n');
      assert s[i..][1..] == s[i + 1..];
      SplitLinesCount(s[i + 1..]);
    } else {
      CountCharZero(s, '\n');
    }
  }

  /** The last piece is the text after the last `\n` (all of `s` when there is none). */
  lemma {:induction false} SplitLinesLast(s: string)
    ensures var r := SplitLines(s); var last := r[|r| - 1];
            '\n' !in last && |last| <= |s| && last == s[|s| - |last|..]
            && (|last| < |s| ==> s[|s| - |last| - 1] == '\n')
    decreases |s|
  {
    if '\n' in s {
      var i := Seqs.FirstIndex(s, '\n');
      SplitLinesLast(s[i + 1..]);
    }
  }

  /** The first white-space position of `s`. */
  function FirstSpace(s: string): (i: nat)
    requires exists k :: 0 <= k < |s| && IsSpace(s[k])
    ensures i < |s| && IsSpace(s[i]) && !HasSpace(s[..i])
  {
    if IsSpace(s[0]) then 0
    else
      assert exists k :: 0 <= k < |s[1..]| && IsSpace(s[1..][k]) by {
        var k :| 0 <= k < |s| && IsSpace(s[k]);
        assert k > 0 && s[1..][k - 1] == s[k];
      }
      1 + FirstSpace(s[1..])
  }

  predicate HasSpace(s: string) {
    exists k :: 0 <= k < |s| && IsSpace(s[k])
  }

  /** The end of the white-space run of `s` that covers position `i`. */
  function SpaceRunEnd(s: string, i: nat): (j: nat)
    requires i <= |s| && IsBlank(s[..i])
    ensures i <= j <= |s| && IsBlank(s[..j]) && (j < |s| ==> !IsSpace(s[j]))
    decreases |s| - i
  {
    if i < |s| && IsSpace(s[i]) then
      var head := s[..i + 1];
      assert IsBlank(head) by {
        forall k | 0 <= k < i + 1 ensures IsSpace(head[k]) {
          if k < i { assert head[k] == s[..i][k]; }
        }
      }
      SpaceRunEnd(s, i + 1)
    else i
  }

  /** Where the first white-space run of `s` starts and where it ends. */
  function FirstGap(s: string): (g: (nat, nat))
    requires HasSpace(s)
    ensures g.0 < g.1 <= |s| && !HasSpace(s[..g.0]) && IsBlank(s[g.0..g.1])
    ensures g.1 < |s| ==> !IsSpace(s[g.1])
  {
    var i := FirstSpace(s);
    var j := SpaceRunEnd(s[i..], 0) + i;
    assert s[i..j] == s[i..][..j - i];
    (i, j)
  }

  /**
   * `s.split(/\s+/)`: the pieces between maximal white-space runs. A leading or
   * trailing run yields an empty first or last piece, and `""` splits into `[""]`.
   */
  function SplitOnSpaces(s: string): (r: seq<string>)
    ensures |r| > 0
    decreases |s|
  {
    if !HasSpace(s) then [s]
    else
      var g := FirstGap(s);
      [s[..g.0]] + SplitOnSpaces(s[g.1..])
  }

  /** A word ends at position `i`: a visible character followed by white space or by the end. */
  predicate WordEndsAt(s: string, i: int) {
    0 <= i < |s| && !IsSpace(s[i]) && (i + 1 == |s| || IsSpace(s[i + 1]))
  }

  /** The number of maximal runs of visible characters, counted by where they end. */
  function RunCount(s: string): nat {
    if |s| == 0 then 0 else (if WordEndsAt(s, 0) then 1 else 0) + RunCount(s[1..])
  }

  /** Whether a run of `a` continues into `b`, making the two runs one. */
  function Glue(a: string, b: string): nat {
    if |a| > 0 && |b| > 0 && !IsSpace(a[|a| - 1]) && !IsSpace(b[0]) then 1 else 0
  }

  /** Runs of a concatenation: those of each part, less one when a run crosses the seam. */
  lemma {:induction false} RunCountAppend(a: string, b: string)
    ensures RunCount(a + b) + Glue(a, b) == RunCount(a) + RunCount(b)
  {
    if |a| == 0 {
      assert a + b == b;
    } else {
      assert (a + b)[1..] == a[1..] + b;
      RunCountAppend(a[1..], b);
      if |a| == 1 {
        assert a[1..] + b == b;
      } else {
        assert (a + b)[1] == a[1];
      }
    }
  }

  lemma {:induction false} BlankRunCount(s: string)
    requires IsBlank(s)
    ensures RunCount(s) == 0
  {
    if |s| > 0 {
      BlankRunCount(s[1..]);
    }
  }

  lemma {:induction false} NoSpaceRunCount(s: string)
    requires !HasSpace(s)
    ensures RunCount(s) == if |s| == 0 then 0 else 1
  {
    if |s| > 1 {
      assert !IsSpace(s[1]);
      NoSpaceRunCount(s[1..]);
    }
  }

  lemma {:induction false} TrimStartRunCount(s: string)
    ensures RunCount(TrimStart(s)) == RunCount(s)
  {
    var t := TrimStart(s);
    var lead := s[..|s| - |t|];
    assert s == lead + t;
    assert IsBlank(lead) by {
      forall k | 0 <= k < |lead| ensures IsSpace(lead[k]) {
        assert lead[k] == s[k];
      }
    }
    BlankRunCount(lead);
    RunCountAppend(lead, t);
  }

  lemma {:induction false} TrimEndRunCount(t: string)
    ensures RunCount(TrimEnd(t)) == RunCount(t)
  {
    var r := TrimEnd(t);
    var trail := t[|r|..];
    assert t == r + trail;
    assert IsBlank(trail) by {
      forall k | 0 <= k < |trail| ensures IsSpace(trail[k]) {
        assert trail[k] == t[|r| + k];
      }
    }
    BlankRunCount(trail);
    RunCountAppend(r, trail);
  }

  /** Trimming removes no run. */
  lemma {:induction false} TrimRunCount(s: string)
    ensures RunCount(Trim(s)) == RunCount(s)
  {
    TrimStartRunCount(s);
    TrimEndRunCount(TrimStart(s));
  }

  /** The number of non-empty pieces. */
  function NonEmptyCount(pieces: seq<string>): nat {
    if |pieces| == 0 then 0 else (if pieces[0] != "" then 1 else 0) + NonEmptyCount(pieces[1..])
  }

  /** Splitting on white-space runs yields one non-empty piece per run of visible characters. */
  lemma {:induction false} SplitOnSpacesRuns(s: string)
    ensures NonEmptyCount(SplitOnSpaces(s)) == RunCount(s)
    decreases |s|
  {
    if !HasSpace(s) {
      NoSpaceRunCount(s);
    } else {
      var g := FirstGap(s);
      var i, j := g.0, g.1;
      assert SplitOnSpaces(s) == [s[..i]] + SplitOnSpaces(s[j..]);
      SplitOnSpacesRuns(s[j..]);
      NonEmptyCountCons(s[..i], SplitOnSpaces(s[j..]));
      RunCountSplit(s, i, j);
    }
  }

  lemma {:induction false} NonEmptyCountCons(x: string, rest: seq<string>)
    ensures NonEmptyCount([x] + rest) == (if x != "" then 1 else 0) + NonEmptyCount(rest)
  {
    assert ([x] + rest)[1..] == rest;
  }

  /** A visible prefix, then a white-space gap: one run for the prefix (if any), then the runs after the gap. */
  lemma {:induction false} RunCountSplit(s: string, i: nat, j: nat)
    requires i < j <= |s| && !HasSpace(s[..i]) && IsBlank(s[i..j])
    ensures RunCount(s) == (if i > 0 then 1 else 0) + RunCount(s[j..])
  {
    var head, gap, rest := s[..i], s[i..j], s[j..];
    BlankRunCount(gap);
    GapGlue(gap, rest);
    RunCountAppend(gap, rest);
    assert s[i..] == gap + rest;
    GapGlue(gap, head);
    assert Glue(head, s[i..]) == 0 by {
      assert |s[i..]| > 0 && s[i..][0] == gap[0];
    }
    assert s == head + s[i..];
    RunCountAppend(head, s[i..]);
    NoSpaceRunCount(head);
  }

  /** Nothing glues across a white-space gap: its first and last characters are white space. */
  lemma {:induction false} GapGlue(gap: string, other: string)
    requires |gap| > 0 && IsBlank(gap)
    ensures Glue(gap, other) == 0 && IsSpace(gap[0]) && IsSpace(gap[|gap| - 1])
  {
  }

  /** A run of text is empty of visible characters exactly when it has no run. */
  lemma {:induction false} RunCountZero(s: string)
    ensures RunCount(s) == 0 <==> IsBlank(s)
  {
    if IsBlank(s) {
      BlankRunCount(s);
    } else {
      RunCountZero(s[1..]);
      if IsBlank(s[1..]) {
        forall k | 1 <= k < |s| ensures IsSpace(s[k]) {
          assert s[1..][k - 1] == s[k];
        }
        assert WordEndsAt(s, 0);
      }
    }
  }

  /** Appending a character other than `\n` extends the last line and adds none. */
  lemma {:induction false} SplitLinesSnoc(s: string, c: char)
    requires c != '\n'
    ensures var r := SplitLines(s); var r' := SplitLines(s + [c]);
      |r'| == |r| && r'[|r| - 1] == r[|r| - 1] + [c]
    decreases |s|
  {
    var t := s + [c];
    if '\n' in s {
      var i := Seqs.FirstIndex(s, '\n');
      assert t[..i] == s[..i];
      Seqs.FirstIndexUnique(t, '\n', i);
      assert t[i + 1..] == s[i + 1..] + [c];
      assert SplitLines(t) == [LineBefore(t, i)] + SplitLines(t[i + 1..]);
      assert SplitLines(s) == [LineBefore(s, i)] + SplitLines(s[i + 1..]);
      assert LineBefore(t, i) == LineBefore(s, i);
      SplitLinesSnoc(s[i + 1..], c);
    } else {
      assert '\n' !in s + [c];
    }
  }
}
