/**
 * `text.split('\n')` and the way a stream of chunks is cut into complete
 * lines plus an unfinished last line.
 */
module Lines {

  /** Position of the first `'\n'` in `s`. */
  function FirstNewline(s: string): (k: nat)
    requires '\n' in s
    ensures k < |s| && s[k] == '\n' && '\n' !in s[..k]
  {
    if s[0] == '\n' then 0
    else
      assert '\n' in s[1..] by { assert s == [s[0]] + s[1..]; }
      var k := 1 + FirstNewline(s[1..]);
      assert s[..k] == [s[0]] + s[1..][..k - 1];
      k
  }

  /** Any newline with none before it is the first one. */
  lemma FirstNewlineUnique(s: string, k: nat)
    requires k < |s| && s[k] == '\n' && '\n' !in s[..k]
    ensures FirstNewline(s) == k
  {
  }

  /** Split at a newline that has none before it. */
  lemma SplitAt(s: string, k: nat)
    requires k < |s| && s[k] == '\n' && '\n' !in s[..k]
    ensures Split(s) == [s[..k]] + Split(s[k + 1..])
  {
    FirstNewlineUnique(s, k);
  }

  /** `s.split('\n')`: always at least one piece, none holding a `'\n'`. */
  function Split(s: string): (r: seq<string>)
    ensures |r| >= 1
    ensures forall i :: 0 <= i < |r| ==> '\n' !in r[i]
    decreases |s|
  {
    if '\n' in s then
      var k := FirstNewline(s);
      [s[..k]] + Split(s[k + 1..])
    else [s]
  }

  /** The pieces glued back with `'\n'` (`lines.join('\n')`). */
  function Join(lines: seq<string>): string
    requires |lines| >= 1
  {
    if |lines| == 1 then lines[0] else lines[0] + "\n" + Join(lines[1..])
  }

  /** Splitting then joining gives the text back. */
  lemma {:induction false} JoinSplit(s: string)
    ensures Join(Split(s)) == s
    decreases |s|
  {
    if '\n' in s {
      var k := FirstNewline(s);
      JoinSplit(s[k + 1..]);
      assert Split(s)[1..] == Split(s[k + 1..]);
      assert s == s[..k] + "\n" + s[k + 1..];
    }
  }

  /** Joining newline-free pieces then splitting gives the pieces back. */
  lemma {:induction false} SplitJoin(lines: seq<string>)
    requires |lines| >= 1
    requires forall i :: 0 <= i < |lines| ==> '\n' !in lines[i]
    ensures Split(Join(lines)) == lines
  {
    if |lines| > 1 {
      var rest := Join(lines[1..]);
      var s := lines[0] + "\n" + rest;
      var k := |lines[0]|;
      assert s[..k] == lines[0] && s[k] == '\n' && s[k + 1..] == rest;
      calc {
        Split(Join(lines));
        Split(s);
        { SplitAt(s, k); }
        [lines[0]] + Split(rest);
        { SplitJoin(lines[1..]); }
        [lines[0]] + lines[1..];
        lines;
      }
    }
  }

  /** The lines ended by a `'\n'`. */
  function CompleteLines(s: string): seq<string>
  {
    Split(s)[..|Split(s)| - 1]
  }

  /** What follows the last `'\n'`: a line still being written. */
  function PartialLine(s: string): string
  {
    Split(s)[|Split(s)| - 1]
  }

  lemma NoNewlineSplit(s: string)
    requires '\n' !in s
    ensures Split(s) == [s] && CompleteLines(s) == [] && PartialLine(s) == s
  {
  }

  /** The unfinished line never holds a `'\n'`. */
  lemma PartialLineHasNoNewline(s: string)
    ensures '\n' !in PartialLine(s)
  {
  }

  /**
   * Splitting a concatenation: the complete lines of `x`, then the split of
   * `x`'s unfinished line continued by `y`.
   */
  lemma {:induction false} SplitAppend(x: string, y: string)
    ensures Split(x + y) == CompleteLines(x) + Split(PartialLine(x) + y)
    decreases |x|
  {
    if '\n' in x {
      var k := FirstNewline(x);
      var rest := x[k + 1..];
      assert (x + y)[..k] == x[..k];
      assert (x + y)[k + 1..] == rest + y;
      SplitAt(x + y, k);
      SplitAt(x, k);
      SplitAppend(rest, y);
      assert CompleteLines(x) == [x[..k]] + CompleteLines(rest);
    } else {
      NoNewlineSplit(x);
    }
  }

  /** Complete lines of a concatenation. */
  lemma CompleteLinesAppend(x: string, y: string)
    ensures CompleteLines(x + y) == CompleteLines(x) + CompleteLines(PartialLine(x) + y)
  {
    SplitAppend(x, y);
    var a := CompleteLines(x);
    var b := Split(PartialLine(x) + y);
    assert (a + b)[..|a + b| - 1] == a + b[..|b| - 1];
  }

  /** Unfinished line of a concatenation. */
  lemma PartialLineAppend(x: string, y: string)
    ensures PartialLine(x + y) == PartialLine(PartialLine(x) + y)
  {
    SplitAppend(x, y);
  }

  /** A text ending in `'\n'` leaves no unfinished line. */
  lemma {:induction false} EndsWithNewline(s: string)
    requires |s| > 0 && s[|s| - 1] == '\n'
    ensures PartialLine(s) == ""
    decreases |s|
  {
    var k := FirstNewline(s);
    if k == |s| - 1 {
      assert s[k + 1..] == "";
      assert Split(s) == [s[..k]] + Split("");
    } else {
      var rest := s[k + 1..];
      assert rest[|rest| - 1] == '\n';
      EndsWithNewline(rest);
      assert Split(s) == [s[..k]] + Split(rest);
    }
  }
}
