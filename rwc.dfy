/**
 * `rwc`, a line/word/character counter.  The file arrives already split
 * into lines (line terminators removed), each line as the bytes of a UTF-8
 * string.  Words are the pieces of `str::split(' ')`, so an empty line is
 * one (empty) word and two adjacent spaces make an empty word between them;
 * characters are bytes, `str::len`.
 */
module Rwc {
  import opened Wrappers

  type Byte = b: int | 0 <= b < 256
  type Line = seq<Byte>

  const SPACE: Byte := 0x20

  /** `line.split(' ')`: the pieces between spaces, always at least one. */
  function Split(line: Line): (pieces: seq<Line>)
    ensures |pieces| >= 1
    decreases |line|
  {
    if line == [] then [[]]
    else
      var rest := Split(line[1..]);
      if line[0] == SPACE then [[]] + rest
      else [[line[0]] + rest[0]] + rest[1..]
  }

  /** The pieces joined back together with single spaces. */
  function Join(pieces: seq<Line>): Line
    requires |pieces| >= 1
    decreases |pieces|
  {
    if |pieces| == 1 then pieces[0] else pieces[0] + [SPACE] + Join(pieces[1..])
  }

  function SpaceCount(line: Line): nat {
    if line == [] then 0 else (if line[0] == SPACE then 1 else 0) + SpaceCount(line[1..])
  }

  /** Splitting and joining again gives back the line. */
  lemma {:induction false} JoinSplit(line: Line)
    ensures Join(Split(line)) == line
    decreases |line|
  {
    if line != [] {
      var rest := Split(line[1..]);
      JoinSplit(line[1..]);
      if line[0] == SPACE {
        assert Split(line)[1..] == rest;
      } else {
        assert Split(line)[1..] == rest[1..];
      }
    }
  }

  /** No piece contains a space. */
  lemma {:induction false} SplitPiecesHaveNoSpace(line: Line)
    ensures forall k, j :: 0 <= k < |Split(line)| && 0 <= j < |Split(line)[k]| ==> Split(line)[k][j] != SPACE
    decreases |line|
  {
    if line != [] {
      SplitPiecesHaveNoSpace(line[1..]);
      var rest := Split(line[1..]);
      if line[0] != SPACE {
        var first := [line[0]] + rest[0];
        assert forall j :: 1 <= j < |first| ==> first[j] == rest[0][j - 1];
      }
    }
  }

  /** One word per space, plus one. */
  lemma {:induction false} SplitCount(line: Line)
    ensures |Split(line)| == SpaceCount(line) + 1
    decreases |line|
  {
    if line != [] {
      SplitCount(line[1..]);
    }
  }

  /** The sum of the lines' byte lengths. */
  function ByteTotal(lines: seq<Line>): nat {
    if lines == [] then 0 else ByteTotal(lines[..|lines| - 1]) + |lines[|lines| - 1]|
  }

  /** The sum over the lines of the number of `split(' ')` pieces. */
  function WordTotal(lines: seq<Line>): nat {
    if lines == [] then 0 else WordTotal(lines[..|lines| - 1]) + |Split(lines[|lines| - 1])|
  }

  /** The sum over the lines of the number of spaces. */
  function SpaceTotal(lines: seq<Line>): nat {
    if lines == [] then 0 else SpaceTotal(lines[..|lines| - 1]) + SpaceCount(lines[|lines| - 1])
  }

  /** Every line is at least one word, and each space adds one more. */
  lemma {:induction false} WordTotalIsSpacesPlusLines(lines: seq<Line>)
    ensures WordTotal(lines) == SpaceTotal(lines) + |lines|
    decreases |lines|
  {
    if lines != [] {
      WordTotalIsSpacesPlusLines(lines[..|lines| - 1]);
      SplitCount(lines[|lines| - 1]);
    }
  }

  /** The totals over a prefix never exceed the totals over the whole. */
  lemma {:induction false} TotalsGrow(lines: seq<Line>, i: nat)
    requires i <= |lines|
    ensures ByteTotal(lines[..i]) <= ByteTotal(lines)
    ensures WordTotal(lines[..i]) <= WordTotal(lines)
    decreases |lines| - i
  {
    if i < |lines| {
      TotalsGrow(lines[..|lines| - 1], i);
      assert lines[..|lines| - 1][..i] == lines[..i];
    } else {
      assert lines[..i] == lines;
    }
  }

  /**
   * The loop of `main`: every line adds one to the line count, its byte
   * length to the character count and its number of `split(' ')` pieces
   * to the word count.
   */
  method Count(lines: seq<Line>) returns (lineCnt: nat, wordCnt: nat, charCnt: nat)
    ensures lineCnt == |lines|
    ensures charCnt == ByteTotal(lines)
    ensures wordCnt == WordTotal(lines) == SpaceTotal(lines) + |lines|
    ensures wordCnt >= lineCnt
  {
    lineCnt, wordCnt, charCnt := 0, 0, 0;
    for i := 0 to |lines|
      invariant lineCnt == i
      invariant charCnt == ByteTotal(lines[..i])
      invariant wordCnt == WordTotal(lines[..i])
    {
      assert lines[..i + 1][..i] == lines[..i];
      lineCnt := lineCnt + 1;
      charCnt := charCnt + |lines[i]|;
      wordCnt := wordCnt + |Split(lines[i])|;
    }
    assert lines[..|lines|] == lines;
    WordTotalIsSpacesPlusLines(lines);
  }

  /** How a run of `rwc` ends. */
  datatype Outcome =
    | TooFewArguments            // "Too few arguments.", exit status 1
    | OpenFailed(filename: string) // panic in `File::open(..).unwrap_or_else`
    | Counted(lines: nat, words: nat, chars: nat)

  /**
   * `main`: with fewer than two arguments it stops before opening anything;
   * otherwise it opens `args[1]` (`open` stands for the file system, giving
   * the file's lines or None when it cannot be opened) and counts.
   */
  method Run(args: seq<string>, open: string -> Option<seq<Line>>) returns (r: Outcome)
    ensures |args| < 2 ==> r == TooFewArguments
    ensures |args| >= 2 && open(args[1]).None? ==> r == OpenFailed(args[1])
    ensures |args| >= 2 && open(args[1]).Some? ==>
      var lines := open(args[1]).value;
      r == Counted(|lines|, SpaceTotal(lines) + |lines|, ByteTotal(lines))
  {
    if |args| < 2 {
      return TooFewArguments;
    }
    var filename := args[1];
    match open(filename)
    case None =>
      r := OpenFailed(filename);
    case Some(lines) =>
      var l, w, c := Count(lines);
      r := Counted(l, w, c);
  }
}
