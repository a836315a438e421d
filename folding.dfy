/**
 * Content-line folding (section 3.1 of RFC 5545) as `foldLine` does it:
 * cut after 75 characters (UTF-16 code units in the source, characters
 * here) and start every continuation with one space.  Unfolding is the
 * inverse the standard prescribes: drop the line break and the single
 * space that starts each continuation.
 */
module Folding {

  const MaxLineLength: nat := 75

  /** The pieces `foldLine(line)` returns, defined by the recursion its loop unrolls. */
  function Folded(line: string): seq<string>
    decreases |line|
  {
    if |line| <= MaxLineLength then [line]
    else [line[..MaxLineLength]] + Folded(" " + line[MaxLineLength..])
  }

  /** `foldLine`: the loop over a shrinking remainder, pushing one 75-character piece per round. */
  method FoldLine(line: string) returns (pieces: seq<string>)
    ensures pieces == Folded(line)
    ensures |line| <= MaxLineLength ==> pieces == [line]
    ensures forall i :: 0 <= i < |pieces| ==> |pieces[i]| <= MaxLineLength
    ensures |pieces| >= 1 && Unfolded(pieces) == line
  {
    pieces := [];
    var rest := line;
    while |rest| > MaxLineLength
      invariant pieces + Folded(rest) == Folded(line)
      decreases |rest|
    {
      pieces := pieces + [rest[..MaxLineLength]];
      rest := " " + rest[MaxLineLength..];
    }
    pieces := pieces + [rest];
    FoldedShape(line);
    FoldRoundTrip(line);
  }

  /** A physical line that continues the previous one. */
  predicate IsContinuation(p: string) {
    |p| > 0 && p[0] == ' '
  }

  /** Removes the one space that marks a continuation line. */
  function Unindent(p: string): string {
    if IsContinuation(p) then p[1..] else p
  }

  function JoinContinuations(pieces: seq<string>): string {
    if pieces == [] then "" else Unindent(pieces[0]) + JoinContinuations(pieces[1..])
  }

  /** Unfolding of one folded line: the first piece followed by every continuation without its space. */
  function Unfolded(pieces: seq<string>): string
    requires |pieces| >= 1
  {
    pieces[0] + JoinContinuations(pieces[1..])
  }

  /** Every piece fits, every piece but the last is full, and every piece but the first is a continuation. */
  lemma {:induction false} FoldedShape(line: string)
    ensures var pieces := Folded(line);
      && |pieces| >= 1
      && pieces[0] == line[..if |line| <= MaxLineLength then |line| else MaxLineLength]
      && (forall i :: 0 <= i < |pieces| ==> |pieces[i]| <= MaxLineLength)
      && (forall i :: 0 <= i < |pieces| - 1 ==> |pieces[i]| == MaxLineLength)
      && (forall i :: 1 <= i < |pieces| ==> |pieces[i]| >= 2 && IsContinuation(pieces[i]))
    decreases |line|
  {
    if |line| > MaxLineLength {
      var rest := " " + line[MaxLineLength..];
      FoldedShape(rest);
      var tail := Folded(rest);
      assert Folded(line) == [line[..MaxLineLength]] + tail;
      assert |tail[0]| >= 2 && tail[0][0] == ' ' by {
        assert tail[0] == rest[..if |rest| <= MaxLineLength then |rest| else MaxLineLength];
      }
    }
  }

  /** Folding then unfolding gives the line back. */
  lemma {:induction false} FoldRoundTrip(line: string)
    ensures Unfolded(Folded(line)) == line
    decreases |line|
  {
    if |line| > MaxLineLength {
      var rest := " " + line[MaxLineLength..];
      var tail := Folded(rest);
      FoldRoundTrip(rest);
      FoldedShape(rest);
      assert Folded(line)[1..] == tail;
      calc {
        JoinContinuations(tail);
        Unindent(tail[0]) + JoinContinuations(tail[1..]);
        tail[0][1..] + JoinContinuations(tail[1..]);
        (tail[0] + JoinContinuations(tail[1..]))[1..];
        rest[1..];
        line[MaxLineLength..];
      }
      assert line == line[..MaxLineLength] + line[MaxLineLength..];
    }
  }

  /** How many physical lines a content line of n characters takes. */
  lemma {:induction false} FoldedCount(line: string)
    ensures |Folded(line)| == if |line| <= MaxLineLength then 1 else 1 + (|line| - 2) / 74
    decreases |line|
  {
    if |line| > MaxLineLength {
      FoldedCount(" " + line[MaxLineLength..]);
    }
  }

  /** The physical lines of a list of content lines, each folded in turn. */
  function FoldAll(contentLines: seq<string>): seq<string>
  {
    if contentLines == [] then [] else Folded(contentLines[0]) + FoldAll(contentLines[1..])
  }

  lemma {:induction false} FoldAllAppend(a: seq<string>, b: seq<string>)
    ensures FoldAll(a + b) == FoldAll(a) + FoldAll(b)
  {
    if a == [] {
      assert a + b == b;
    } else {
      assert (a + b)[0] == a[0] && (a + b)[1..] == a[1..] + b;
      FoldAllAppend(a[1..], b);
    }
  }

  /** How many physical lines at the head of `lines` are continuations. */
  function LeadingContinuations(lines: seq<string>): (k: nat)
    ensures k <= |lines|
  {
    if lines != [] && IsContinuation(lines[0]) then 1 + LeadingContinuations(lines[1..]) else 0
  }

  /** Unfolding of a stream of physical lines into content lines (section 3.1 of RFC 5545). */
  function UnfoldLines(physical: seq<string>): seq<string>
    decreases |physical|
  {
    if physical == [] then []
    else
      var k := LeadingContinuations(physical[1..]);
      [Unfolded(physical[..1 + k])] + UnfoldLines(physical[1 + k..])
  }

  lemma {:induction false} LeadingContinuationsAppend(a: seq<string>, b: seq<string>)
    requires forall i :: 0 <= i < |a| ==> IsContinuation(a[i])
    requires b == [] || !IsContinuation(b[0])
    ensures LeadingContinuations(a + b) == |a|
  {
    if a != [] {
      assert (a + b)[1..] == a[1..] + b;
      LeadingContinuationsAppend(a[1..], b);
    }
  }

  /** The first physical line a content line folds into is a continuation only if the content line is one. */
  lemma FoldedHead(line: string)
    ensures IsContinuation(Folded(line)[0]) <==> IsContinuation(line)
  {
    FoldedShape(line);
  }

  lemma {:induction false} UnfoldFoldedThen(line: string, rest: seq<string>)
    requires !IsContinuation(line)
    requires rest == [] || !IsContinuation(rest[0])
    ensures UnfoldLines(Folded(line) + rest) == [line] + UnfoldLines(rest)
  {
    var f := Folded(line);
    FoldedShape(line);
    FoldRoundTrip(line);
    var all := f + rest;
    assert all[1..] == f[1..] + rest;
    LeadingContinuationsAppend(f[1..], rest);
    assert all[..1 + |f[1..]|] == f;
    assert all[1 + |f[1..]|..] == rest;
  }

  /**
   * RFC 5545 unfolding inverts folding on a whole list of content lines,
   * provided none of them itself begins with a space.
   */
  lemma {:induction false} UnfoldFoldAll(contentLines: seq<string>)
    requires forall i :: 0 <= i < |contentLines| ==> !IsContinuation(contentLines[i])
    ensures UnfoldLines(FoldAll(contentLines)) == contentLines
  {
    if contentLines != [] {
      var rest := FoldAll(contentLines[1..]);
      if contentLines[1..] != [] {
        FoldedHead(contentLines[1]);
        assert rest[0] == Folded(contentLines[1])[0];
      }
      UnfoldFoldedThen(contentLines[0], rest);
      UnfoldFoldAll(contentLines[1..]);
    }
  }

  /** No physical line of a folded list is longer than 75 characters. */
  lemma {:induction false} FoldAllBounded(contentLines: seq<string>)
    ensures forall i :: 0 <= i < |FoldAll(contentLines)| ==> |FoldAll(contentLines)[i]| <= MaxLineLength
  {
    if contentLines != [] {
      FoldedShape(contentLines[0]);
      FoldAllBounded(contentLines[1..]);
      var f := Folded(contentLines[0]);
      var all := FoldAll(contentLines);
      forall i | 0 <= i < |all| ensures |all[i]| <= MaxLineLength {
        if i < |f| { assert all[i] == f[i]; } else { assert all[i] == FoldAll(contentLines[1..])[i - |f|]; }
      }
    }
  }

  /**
   * A line shorter than 75 characters that is not a continuation (a line such as `BEGIN:VEVENT`)
   * occurs among the physical lines exactly as often as among the content lines.
   */
  lemma {:induction false} FoldAllCount(contentLines: seq<string>, marker: string)
    requires |marker| < MaxLineLength && !IsContinuation(marker)
    ensures multiset(FoldAll(contentLines))[marker] == multiset(contentLines)[marker]
  {
    if contentLines != [] {
      var line := contentLines[0];
      FoldedMarkerCount(line, marker);
      FoldAllCount(contentLines[1..], marker);
      assert contentLines == [line] + contentLines[1..];
      assert multiset(contentLines) == multiset([line]) + multiset(contentLines[1..]);
    }
  }

  lemma FoldedMarkerCount(line: string, marker: string)
    requires |marker| < MaxLineLength && !IsContinuation(marker)
    ensures multiset(Folded(line))[marker] == if line == marker then 1 else 0
  {
    FoldedShape(line);
    var f := Folded(line);
    if |line| > MaxLineLength {
      assert f == [f[0]] + f[1..];
      assert |f[0]| == MaxLineLength;
      NoMarkerAmongContinuations(f[1..], marker);
    }
  }

  lemma {:induction false} NoMarkerAmongContinuations(lines: seq<string>, marker: string)
    requires forall i :: 0 <= i < |lines| ==> IsContinuation(lines[i])
    requires !IsContinuation(marker)
    ensures multiset(lines)[marker] == 0
  {
    if lines != [] {
      assert lines == [lines[0]] + lines[1..];
      NoMarkerAmongContinuations(lines[1..], marker);
    }
  }
}
