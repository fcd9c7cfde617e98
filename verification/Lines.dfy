/**
 Cutting a byte string into lines as Python's `bytes.splitlines(keepends=True)` does: a line ends at LF,
 at CR, or at the pair CR LF. Everything is stated on a window `[k, end)` of a longer string.
 */
module Lines {
  import opened Wrappers

  const LF: Byte := 10
  const CR: Byte := 13

  predicate Ends(b: Byte) {
    b == LF || b == CR
  }

  /** A line may start at `k`: it is the beginning, or a terminator stands before it. */
  predicate Boundary(data: seq<Byte>, k: nat) {
    k <= |data| && (k == 0 || Ends(data[k - 1]))
  }

  /** Empty, or ending in a line terminator. */
  predicate Whole(data: seq<Byte>) {
    Boundary(data, |data|)
  }

  /** A CR LF pair lies across position `p`. */
  predicate SplitsPair(data: seq<Byte>, p: nat) {
    0 < p < |data| && data[p - 1] == CR && data[p] == LF
  }

  ghost predicate NoCrLf(data: seq<Byte>) {
    forall p :: !SplitsPair(data, p)
  }

  /** The bytes of the window `[k, end)`. */
  function Bytes(data: seq<Byte>, k: nat, end: nat): (r: seq<Byte>)
    requires k <= end <= |data|
    ensures |r| == end - k
    decreases end - k
  {
    if k == end then [] else [data[k]] + Bytes(data, k + 1, end)
  }

  /** `window` is the part of `data` that starts at `o`. */
  ghost predicate WindowAt(data: seq<Byte>, o: nat, window: seq<Byte>) {
    o + |window| <= |data| && forall i :: 0 <= i < |window| ==> window[i] == data[o + i]
  }

  lemma {:induction false} BytesAreWindow(data: seq<Byte>, k: nat, end: nat)
    requires k <= end <= |data|
    ensures WindowAt(data, k, Bytes(data, k, end))
    decreases end - k
  {
    if k < end {
      BytesAreWindow(data, k + 1, end);
      var rest := Bytes(data, k + 1, end);
      forall i | 0 < i < end - k ensures Bytes(data, k, end)[i] == data[k + i] {
        assert Bytes(data, k, end)[i] == rest[i - 1];
      }
    }
  }

  /** Where the line starting at `k` ends, terminator included; `end` when it is unterminated. */
  function LineEnd(data: seq<Byte>, k: nat, end: nat): (e: nat)
    requires k < end <= |data|
    ensures k < e <= end && (e < end ==> Ends(data[e - 1]))
    decreases end - k
  {
    if data[k] == LF then k + 1
    else if data[k] == CR then (if k + 1 < end && data[k + 1] == LF then k + 2 else k + 1)
    else if k + 1 == end then k + 1
    else LineEnd(data, k + 1, end)
  }

  function LinesIn(data: seq<Byte>, k: nat, end: nat): seq<seq<Byte>>
    requires k <= end <= |data|
    decreases end - k
  {
    if k == end then [] else [Bytes(data, k, LineEnd(data, k, end))] + LinesIn(data, LineEnd(data, k, end), end)
  }

  function SplitLines(data: seq<Byte>): seq<seq<Byte>> {
    LinesIn(data, 0, |data|)
  }

  function Join(lines: seq<seq<Byte>>): seq<Byte> {
    if lines == [] then [] else lines[0] + Join(lines[1..])
  }

  /** The last line boundary at or before `n`. */
  function LastBoundary(data: seq<Byte>, n: nat): (k: nat)
    requires n <= |data|
    ensures k <= n && Boundary(data, k)
  {
    if n == 0 || Ends(data[n - 1]) then n else LastBoundary(data, n - 1)
  }

  /** How many leading bytes form complete lines: the position after the last terminator. */
  function Complete(data: seq<Byte>): (n: nat)
    ensures Boundary(data, n)
  {
    LastBoundary(data, |data|)
  }

  // ---- Line ends and boundaries ----

  /** A line holds no terminator but its own, except that a CR may stand before its final LF. */
  lemma {:induction false} LineEndsOnce(data: seq<Byte>, k: nat, end: nat, i: nat)
    requires k <= i < end <= |data| && i + 1 < LineEnd(data, k, end) && Ends(data[i])
    ensures data[i] == CR && i + 2 == LineEnd(data, k, end) && data[i + 1] == LF
    decreases end - k
  {
    if !Ends(data[k]) { LineEndsOnce(data, k + 1, end, i); }
  }

  /** The end of a line never jumps over a boundary that splits no CR LF pair. */
  lemma {:induction false} LineEndIsNext(data: seq<Byte>, k: nat, end: nat, b: nat)
    requires k < b <= end <= |data| && Boundary(data, b) && !SplitsPair(data, b)
    ensures LineEnd(data, k, end) <= b && Boundary(data, LineEnd(data, k, end))
    ensures LineEnd(data, k, end) == LineEnd(data, k, b)
    decreases end - k
  {
    if !Ends(data[k]) { LineEndIsNext(data, k + 1, end, b); }
  }

  /** A terminated line ends behind its whole terminator. */
  lemma {:induction false} LineKeepsPairs(data: seq<Byte>, k: nat, end: nat)
    requires k < end <= |data| && (end == |data| || LineEnd(data, k, end) < end)
    ensures !SplitsPair(data, LineEnd(data, k, end))
    decreases end - k
  {
    if !Ends(data[k]) && k + 1 < end { LineKeepsPairs(data, k + 1, end); }
  }

  /** A line is a line of its own window. */
  lemma {:induction false} LineOfItsOwn(data: seq<Byte>, k: nat, end: nat)
    requires k < end <= |data|
    ensures LineEnd(data, k, LineEnd(data, k, end)) == LineEnd(data, k, end)
    decreases end - k
  {
    if !Ends(data[k]) && k + 1 < end { LineOfItsOwn(data, k + 1, end); }
  }

  lemma {:induction false} NoTerminatorAfterBoundary(data: seq<Byte>, n: nat, i: nat)
    requires n <= |data| && LastBoundary(data, n) <= i < n
    ensures !Ends(data[i])
  {
    if i < n - 1 { NoTerminatorAfterBoundary(data, n - 1, i); }
  }

  /** `LastBoundary` is the greatest boundary up to `n`. */
  lemma BoundaryAtMostLast(data: seq<Byte>, n: nat, k: nat)
    requires k <= n <= |data| && Boundary(data, k)
    ensures k <= LastBoundary(data, n)
  {
    if k > LastBoundary(data, n) { NoTerminatorAfterBoundary(data, n, k - 1); }
  }

  /** In a window without a further boundary the line reaches the window's end, unterminated. */
  lemma LineWithoutEnd(data: seq<Byte>, k: nat, end: nat)
    requires k < end <= |data| && LastBoundary(data, end) <= k
    ensures LineEnd(data, k, end) == end && !Ends(data[end - 1])
  {
    NoTerminatorAfterBoundary(data, end, end - 1);
    var e := LineEnd(data, k, end);
    if e < end { NoTerminatorAfterBoundary(data, end, e - 1); }
  }

  // ---- Windows ----

  lemma {:induction false} LineEndInWindow(data: seq<Byte>, o: nat, window: seq<Byte>, k: nat)
    requires WindowAt(data, o, window) && k < |window|
    ensures LineEnd(data, o + k, o + |window|) == o + LineEnd(window, k, |window|)
    decreases |window| - k
  {
    if !Ends(window[k]) && k + 1 < |window| { LineEndInWindow(data, o, window, k + 1); }
  }

  lemma {:induction false} LastBoundaryInWindow(data: seq<Byte>, o: nat, window: seq<Byte>, n: nat)
    requires WindowAt(data, o, window) && Boundary(data, o) && n <= |window|
    ensures LastBoundary(data, o + n) == o + LastBoundary(window, n)
  {
    if n > 0 && !Ends(window[n - 1]) { LastBoundaryInWindow(data, o, window, n - 1); }
  }

  /** A chunk read at a line start: where its complete lines end in the file. */
  lemma CompleteInWindow(data: seq<Byte>, o: nat, window: seq<Byte>)
    requires WindowAt(data, o, window) && Boundary(data, o)
    ensures o + Complete(window) == LastBoundary(data, o + |window|)
  {
    LastBoundaryInWindow(data, o, window, |window|);
  }

  // ---- Cutting in pieces ----

  /** Nothing is lost or invented by cutting. */
  lemma {:induction false} JoinOfLines(data: seq<Byte>, k: nat, end: nat)
    requires k <= end <= |data|
    ensures Join(LinesIn(data, k, end)) == Bytes(data, k, end)
    decreases end - k
  {
    if k < end {
      var e := LineEnd(data, k, end);
      JoinOfLines(data, e, end);
      BytesOfCut(data, k, e, end);
      assert LinesIn(data, k, end)[1..] == LinesIn(data, e, end);
    }
  }

  lemma BytesOfCut(data: seq<Byte>, k: nat, p: nat, end: nat)
    requires k < p <= end <= |data|
    ensures Bytes(data, k, end) == Bytes(data, k, p) + Bytes(data, p, end)
  {
    BytesAreWindow(data, k, end);
    BytesAreWindow(data, k, p);
    BytesAreWindow(data, p, end);
  }

  lemma {:induction false} LinesOfCleanCut(data: seq<Byte>, k: nat, p: nat, end: nat)
    requires k <= p <= end <= |data| && Boundary(data, p) && !SplitsPair(data, p)
    ensures LinesIn(data, k, end) == LinesIn(data, k, p) + LinesIn(data, p, end)
    decreases p - k
  {
    if k < p {
      LineEndIsNext(data, k, end, p);
      LinesOfCleanCut(data, LineEnd(data, k, end), p, end);
    }
  }

  /** A line that runs up to a cut inside a CR LF pair is one byte longer without the cut. */
  lemma {:induction false} LineEndAtPair(data: seq<Byte>, k: nat, p: nat, end: nat)
    requires k < p < end <= |data| && SplitsPair(data, p)
    ensures LineEnd(data, k, p) < p ==> LineEnd(data, k, end) == LineEnd(data, k, p)
    ensures LineEnd(data, k, p) == p ==> LineEnd(data, k, end) == p + 1
    decreases p - k
  {
    if !Ends(data[k]) { LineEndAtPair(data, k + 1, p, end); }
  }

  lemma {:induction false} LinesOfPairCut(data: seq<Byte>, k: nat, p: nat, end: nat)
    requires k < p < end <= |data| && SplitsPair(data, p)
    ensures |LinesIn(data, k, end)| == |LinesIn(data, k, p)| + |LinesIn(data, p, end)| - 1
    decreases p - k
  {
    var e := LineEnd(data, k, p);
    LineEndAtPair(data, k, p, end);
    if e < p {
      LinesOfPairCut(data, e, p, end);
    } else {
      assert |LinesIn(data, p, end)| == 1 + |LinesIn(data, p + 1, end)|;
      assert |LinesIn(data, k, p)| == 1 + |LinesIn(data, p, p)| == 1;
    }
  }

  /** Cutting at a boundary gives the lines of the whole exactly when it splits no CR LF pair. */
  lemma CutIsExact(data: seq<Byte>, k: nat, p: nat, end: nat)
    requires k < p < end <= |data| && Boundary(data, p)
    ensures LinesIn(data, k, end) == LinesIn(data, k, p) + LinesIn(data, p, end) <==> !SplitsPair(data, p)
  {
    if SplitsPair(data, p) { LinesOfPairCut(data, k, p, end); } else { LinesOfCleanCut(data, k, p, end); }
  }

  /**
   What a line is: it ends behind LF, behind CR LF or behind a CR without LF, and holds no other LF and no other CR;
   only the last line of the window may lack its end.
   */
  lemma LineIsExact(data: seq<Byte>, k: nat, end: nat)
    requires k < end <= |data|
    ensures var e := LineEnd(data, k, end);
      && k < e <= end
      && (e < end ==> data[e - 1] == 10 || (data[e - 1] == 13 && data[e] != 10))
      && forall i :: k <= i < e - 1 && (data[i] == 10 || data[i] == 13) ==>
        i == e - 2 && data[i] == 13 && data[e - 1] == 10
  {
    var e := LineEnd(data, k, end);
    if e < end { LineKeepsPairs(data, k, end); }
    forall i | k <= i < e - 1 && (data[i] == 10 || data[i] == 13)
      ensures i == e - 2 && data[i] == 13 && data[e - 1] == 10
    {
      LineEndsOnce(data, k, end, i);
    }
  }
}
