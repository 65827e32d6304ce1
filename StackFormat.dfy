/**
  * Rendering of the captured goroutine stack: `formatStack` in
  * github/crash_report.go.  The capture buffer is a Go `[]byte`; Go strings
  * are byte strings too, so the whole rendering is modelled on byte sequences.
  */
module StackFormat {

  /** A Go `byte`. */
  newtype byte = x: int | 0 <= x < 256

  /** The padding byte `bytes.Trim` strips ("\x00"). */
  const NUL: byte := 0
  /** The line separator `strings.Split` and `strings.Join` use ("\n"). */
  const LF: byte := 10

  /** Lines 1 to 4 after the header are the capture machinery's own frames. */
  const DroppedLines: nat := 4

  /** Number of occurrences of `b` in `s`. */
  function Count(s: seq<byte>, b: byte): (n: nat)
    ensures n <= |s|
    ensures n == 0 <==> b !in s
  {
    if s == [] then 0 else (if s[0] == b then 1 else 0) + Count(s[1..], b)
  }

  // ----- bytes.Trim(buf, "\x00") -----

  /** Length of the run of NUL bytes that starts `s`. */
  function LeadingNuls(s: seq<byte>): (n: nat)
    ensures n <= |s|
  {
    if s != [] && s[0] == NUL then 1 + LeadingNuls(s[1..]) else 0
  }

  /** The leading run is all NUL and is followed by a non-NUL byte, if any. */
  lemma {:induction false} LeadingNulsSpan(s: seq<byte>)
    ensures forall k :: 0 <= k < LeadingNuls(s) ==> s[k] == NUL
    ensures LeadingNuls(s) < |s| ==> s[LeadingNuls(s)] != NUL
  {
    if s != [] && s[0] == NUL {
      LeadingNulsSpan(s[1..]);
      assert forall k :: 1 <= k < LeadingNuls(s) ==> s[k] == s[1..][k - 1];
    }
  }

  /** Length of the run of NUL bytes that ends `s`. */
  function TrailingNuls(s: seq<byte>): (n: nat)
    ensures n <= |s|
  {
    if s != [] && s[|s| - 1] == NUL then 1 + TrailingNuls(s[..|s| - 1]) else 0
  }

  /** The trailing run is all NUL and is preceded by a non-NUL byte, if any. */
  lemma {:induction false} TrailingNulsSpan(s: seq<byte>)
    ensures forall k :: |s| - TrailingNuls(s) <= k < |s| ==> s[k] == NUL
    ensures TrailingNuls(s) < |s| ==> s[|s| - 1 - TrailingNuls(s)] != NUL
  {
    if s != [] && s[|s| - 1] == NUL {
      var init := s[..|s| - 1];
      TrailingNulsSpan(init);
      assert forall k :: |s| - TrailingNuls(s) <= k < |s| - 1 ==> s[k] == init[k];
    }
  }

  /**
    * `s[i..j]` is what is left of `s` once NUL bytes, and nothing else, are
    * removed from both ends until a non-NUL byte (or nothing) remains.
    */
  ghost predicate TrimmedAt(s: seq<byte>, i: int, j: int)
  {
    && 0 <= i <= j <= |s|
    && (forall k :: 0 <= k < i ==> s[k] == NUL)
    && (forall k :: j <= k < |s| ==> s[k] == NUL)
    && (i < j ==> s[i] != NUL && s[j - 1] != NUL)
  }

  /** `bytes.Trim(buf, "\x00")`: strips leading and trailing NUL bytes only. */
  function TrimNul(s: seq<byte>): (r: seq<byte>)
    ensures |r| <= |s|
    ensures r != [] ==> r[0] != NUL && r[|r| - 1] != NUL
    ensures NUL !in s ==> r == s
  {
    var i := LeadingNuls(s);
    LeadingNulsSpan(s);
    TrailingNulsSpan(s[i..]);
    s[i..|s| - TrailingNuls(s[i..])]
  }

  /** TrimNul cuts at a place TrimmedAt describes. */
  lemma TrimNulIsTrim(s: seq<byte>)
    ensures exists i, j :: TrimmedAt(s, i, j) && TrimNul(s) == s[i..j]
  {
    var i := LeadingNuls(s);
    var j := |s| - TrailingNuls(s[i..]);
    LeadingNulsSpan(s);
    TrailingNulsSpan(s[i..]);
    assert TrimmedAt(s, i, j);
  }

  /** Any cut that removes only end NULs down to non-NUL ends yields the same bytes. */
  lemma {:induction false} TrimmedAtUnique(s: seq<byte>, i: int, j: int, i': int, j': int)
    requires TrimmedAt(s, i, j) && TrimmedAt(s, i', j')
    ensures s[i..j] == s[i'..j']
  {
    if i < j && i' < j' {
      // A non-NUL byte bounds each cut, so neither cut can reach past the other.
      assert s[i] != NUL && s[i'] != NUL;
      assert s[j - 1] != NUL && s[j' - 1] != NUL;
    } else if i < j {
      // The other cut is empty, so every byte of s is NUL, s[i] included.
      assert false;
    } else if i' < j' {
      assert false;
    }
  }

  /** TrimNul is the unique NUL trim: every cut described by TrimmedAt gives its result. */
  lemma TrimNulCharacterized(s: seq<byte>, i: int, j: int)
    requires TrimmedAt(s, i, j)
    ensures TrimNul(s) == s[i..j]
  {
    var r := TrimNul(s);
    TrimNulIsTrim(s);
    var i', j' :| TrimmedAt(s, i', j') && r == s[i'..j'];
    TrimmedAtUnique(s, i, j, i', j');
  }

  /** A buffer holding only padding trims to nothing. */
  lemma AllNulTrimsToEmpty(s: seq<byte>)
    requires forall k :: 0 <= k < |s| ==> s[k] == NUL
    ensures TrimNul(s) == []
  {
    TrimNulCharacterized(s, 0, 0);
  }

  // ----- strings.Split(s, "\n") and strings.Join(lines, "\n") -----

  /**
    * `strings.Split(s, "\n")`: the pieces between separators, one more than
    * the number of separators (so the empty string splits into one empty line).
    */
  function Split(s: seq<byte>): (lines: seq<seq<byte>>)
    ensures |lines| == Count(s, LF) + 1
  {
    if s == [] then [[]]
    else
      var rest := Split(s[1..]);
      if s[0] == LF then [[]] + rest
      else [[s[0]] + rest[0]] + rest[1..]
  }

  /** No piece of a split contains the separator. */
  lemma {:induction false} SplitHasNoSeparator(s: seq<byte>)
    ensures forall k :: 0 <= k < |Split(s)| ==> LF !in Split(s)[k]
  {
    if s != [] {
      SplitHasNoSeparator(s[1..]);
      var rest := Split(s[1..]);
      if s[0] != LF {
        assert LF !in [s[0]] + rest[0];
        assert forall k :: 1 <= k < |Split(s)| ==> Split(s)[k] == rest[k];
      } else {
        assert forall k :: 1 <= k < |Split(s)| ==> Split(s)[k] == rest[k - 1];
      }
    }
  }

  /** `strings.Join(lines, "\n")`: the lines with one separator between each two. */
  function Join(lines: seq<seq<byte>>): (s: seq<byte>)
    ensures lines != [] ==> |lines[0]| <= |s| && s[..|lines[0]|] == lines[0]
  {
    if lines == [] then []
    else if |lines| == 1 then lines[0]
    else lines[0] + [LF] + Join(lines[1..])
  }

  /** Joining the pieces of a split gives back the original text. */
  lemma {:induction false} JoinSplit(s: seq<byte>)
    ensures Join(Split(s)) == s
  {
    if s != [] {
      JoinSplit(s[1..]);
      var rest := Split(s[1..]);
      if s[0] == LF {
        assert Split(s) == [[]] + rest;
        assert ([[]] + rest)[1..] == rest;
      } else {
        assert Split(s) == [[s[0]] + rest[0]] + rest[1..];
        if |rest| > 1 {
          assert ([[s[0]] + rest[0]] + rest[1..])[1..] == rest[1..];
        }
      }
    }
  }

  /** Text without a separator splits into itself. */
  lemma {:induction false} SplitSingleLine(line: seq<byte>)
    requires LF !in line
    ensures Split(line) == [line]
  {
    if line != [] {
      SplitSingleLine(line[1..]);
      assert [line[0]] + line[1..] == line;
    }
  }

  /** A separator-free line followed by a separator splits off as the first piece. */
  lemma {:induction false} SplitFirstLine(line: seq<byte>, rest: seq<byte>)
    requires LF !in line
    ensures Split(line + [LF] + rest) == [line] + Split(rest)
  {
    var s := line + [LF] + rest;
    if line == [] {
      assert s == [LF] + rest && s[1..] == rest;
    } else {
      assert s[0] == line[0] && s[1..] == line[1..] + [LF] + rest;
      SplitFirstLine(line[1..], rest);
      assert [line[0]] + line[1..] == line;
    }
  }

  /** Splitting a join of separator-free lines gives back those lines. */
  lemma {:induction false} SplitJoin(lines: seq<seq<byte>>)
    requires |lines| >= 1
    requires forall k :: 0 <= k < |lines| ==> LF !in lines[k]
    ensures Split(Join(lines)) == lines
  {
    if |lines| == 1 {
      SplitSingleLine(lines[0]);
    } else {
      SplitJoin(lines[1..]);
      SplitFirstLine(lines[0], Join(lines[1..]));
      assert [lines[0]] + lines[1..] == lines;
    }
  }

  // ----- formatStack -----

  /** The lines of the trimmed capture. */
  function StackLines(buf: seq<byte>): seq<seq<byte>>
  {
    Split(TrimNul(buf))
  }

  /** formatStack indexes `stack[5:]`, so the trimmed capture needs at least five lines. */
  predicate Formattable(buf: seq<byte>)
  {
    |StackLines(buf)| > DroppedLines
  }

  /**
    * `formatStack`: trim the NUL padding, split into lines, keep the header
    * line, drop the next four (the capture machinery's frames), keep the rest
    * in order and join again.
    */
  function FormatStack(buf: seq<byte>): (stack: seq<byte>)
    requires Formattable(buf)
    ensures Split(stack) == [StackLines(buf)[0]] + StackLines(buf)[DroppedLines + 1..]
    ensures |Split(stack)| == |StackLines(buf)| - DroppedLines
  {
    var lines := StackLines(buf);
    var kept := lines[..1] + lines[DroppedLines + 1..];
    SplitHasNoSeparator(TrimNul(buf));
    assert forall k :: 0 <= k < |kept| ==> LF !in kept[k] by {
      forall k | 0 <= k < |kept| ensures LF !in kept[k] {
        if k > 0 { assert kept[k] == lines[k + DroppedLines]; }
      }
    }
    SplitJoin(kept);
    Join(kept)
  }

  /** The rendered stack starts with the header line of the capture. */
  lemma FormatStackKeepsHeader(buf: seq<byte>)
    requires Formattable(buf)
    ensures var header := StackLines(buf)[0];
      |header| <= |FormatStack(buf)| && FormatStack(buf)[..|header|] == header
  {
    JoinSplit(FormatStack(buf));
  }

  /** Line k >= 1 of the rendered stack is line k + 4 of the capture: lines 1 to 4 are gone. */
  lemma FormatStackShiftsFrames(buf: seq<byte>, k: nat)
    requires Formattable(buf)
    requires 1 <= k < |Split(FormatStack(buf))|
    ensures Split(FormatStack(buf))[k] == StackLines(buf)[k + DroppedLines]
  {
    var lines := StackLines(buf);
    var tail := lines[DroppedLines + 1..];
    assert Split(FormatStack(buf)) == [lines[0]] + tail;
    assert ([lines[0]] + tail)[k] == tail[k - 1];
  }

  /** A capture that is all padding cannot be formatted: it is a single empty line. */
  lemma AllNulIsNotFormattable(buf: seq<byte>)
    requires forall k :: 0 <= k < |buf| ==> buf[k] == NUL
    ensures StackLines(buf) == [[]]
    ensures !Formattable(buf)
  {
    AllNulTrimsToEmpty(buf);
  }
}
