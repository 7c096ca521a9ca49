/** Cutting a finished answer into transport chunks. */
module AnswerChunking {

  /** rfind(" ", 0, end): the last space before end, or -1. */
  function LastSpace(s: string, end: nat): (i: int)
    requires end <= |s|
    ensures -1 <= i < end
    ensures i >= 0 ==> s[i] == ' '
    ensures forall k :: i < k < end ==> s[k] != ' '
  {
    if end == 0 then -1 else if s[end - 1] == ' ' then end - 1 else LastSpace(s, end - 1)
  }

  function Concatenated(chunks: seq<string>): string {
    if chunks == [] then "" else Concatenated(chunks[..|chunks| - 1]) + chunks[|chunks| - 1]
  }

  function Min(x: int, y: int): int {
    if x <= y then x else y
  }

  /** The least a cut takes off when text remains. */
  function Least(maximum: nat): int {
    Min(maximum, maximum / 2 + 2)
  }

  /** Where a text is cut that may be longer than the maximum: just after its last space not past
      the maximum and beyond half of it, and at the maximum if there is none there. */
  ghost predicate CutAt(text: string, maximum: nat, n: nat) {
    if |text| <= maximum then n == |text|
    else
      || (maximum / 2 + 1 < n <= maximum + 1 && text[n - 1] == ' ' && forall k :: n <= k <= maximum ==> text[k] != ' ')
      || (n == maximum && forall k :: maximum / 2 < k <= maximum ==> text[k] != ' ')
  }

  /** Each chunk is the cut of what the chunks before it left. */
  ghost predicate Cuts(answer: string, maximum: nat, chunks: seq<string>) {
    forall i :: 0 <= i < |chunks| ==>
      var done := |Concatenated(chunks[..i])|;
      done <= |answer| && answer[..done] == Concatenated(chunks[..i])
      && |chunks[i]| <= |answer| - done && chunks[i] == answer[done..][..|chunks[i]|]
      && CutAt(answer[done..], maximum, |chunks[i]|)
  }

  lemma {:induction false} ConcatenatedLength(chunks: seq<string>, least: int)
    requires forall i :: 0 <= i < |chunks| ==> |chunks[i]| >= least
    ensures |Concatenated(chunks)| >= |chunks| * least
  {
    if chunks != [] {
      ConcatenatedLength(chunks[..|chunks| - 1], least);
    }
  }

  lemma ConcatenatedSnoc(chunks: seq<string>, c: string)
    ensures Concatenated(chunks + [c]) == Concatenated(chunks) + c
  {
    assert (chunks + [c])[..|chunks|] == chunks;
  }

  method Boundary(remaining: string, maximum: nat) returns (boundary: nat)
    requires maximum >= 1 && remaining != ""
    ensures 0 < boundary <= |remaining| && CutAt(remaining, maximum, boundary) && boundary <= maximum + 1
    ensures boundary < |remaining| ==> boundary >= Least(maximum)
  {
    boundary := if maximum < |remaining| then maximum else |remaining|;
    if boundary < |remaining| {
      var whitespace := LastSpace(remaining, boundary + 1);
      if whitespace > maximum / 2 {
        boundary := whitespace + 1;
      }
    }
  }

  ghost predicate AllAtMost(chunks: seq<string>, most: int) {
    forall i :: 0 <= i < |chunks| ==> |chunks[i]| <= most
  }

  ghost predicate AllAtLeast(chunks: seq<string>, least: int) {
    forall i :: 0 <= i < |chunks| ==> |chunks[i]| >= least
  }

  /** For every answer and maximum the loop ends; the chunks concatenate to the answer, each is cut
      as CutAt says, none is longer than the maximum plus one, and every one but the last takes at
      least Least(maximum), which bounds their number. */
  method AnswerChunks(answer: string, maximum: nat) returns (chunks: seq<string>)
    requires maximum >= 1
    ensures Concatenated(chunks) == answer && chunks != []
    ensures answer != "" ==> Cuts(answer, maximum, chunks)
    ensures AllAtMost(chunks, maximum + 1) && AllAtLeast(chunks[..|chunks| - 1], Least(maximum))
    ensures answer != "" ==> (|chunks| - 1) * Least(maximum) < |answer|
    ensures answer != "" ==> (AllAtMost(chunks, maximum) <==> !SpaceAtMaximum(answer, maximum, chunks))
  {
    hide Cuts, CutAt, LastSpace, Concatenated, Least, AllAtMost, AllAtLeast, SpaceAtMaximum;
    if answer == "" {
      chunks := [""];
      SingleEmpty(maximum);
      return;
    }
    chunks := [];
    var remaining := answer;
    NothingCut(answer, maximum);
    while remaining != ""
      invariant Concatenated(chunks) + remaining == answer
      invariant Cuts(answer, maximum, chunks) && AllAtMost(chunks, maximum + 1)
      invariant remaining != "" ==> AllAtLeast(chunks, Least(maximum))
      invariant remaining == "" ==>
                  chunks != [] && chunks[|chunks| - 1] != "" && AllAtLeast(chunks[..|chunks| - 1], Least(maximum))
      decreases |remaining|
    {
      var boundary := Boundary(remaining, maximum);
      ghost var done := Concatenated(chunks);
      var chunk := remaining[..boundary];
      assert answer[|done|..] == remaining && answer[..|done|] == done;
      assert remaining == chunk + remaining[boundary..];
      ConcatenatedSnoc(chunks, chunk);
      CutsSnoc(answer, maximum, chunks, chunk);
      BoundsSnoc(chunks, chunk, maximum);
      assert (chunks + [chunk])[..|chunks|] == chunks;
      chunks := chunks + [chunk];
      remaining := remaining[boundary..];
    }
    CountBounded(chunks, Least(maximum));
    WithinMaximumExactly(answer, maximum, chunks);
  }

  lemma SingleEmpty(maximum: nat)
    ensures Concatenated([""]) == "" && AllAtMost([""], maximum + 1) && AllAtLeast([""][..0], Least(maximum))
  {
    assert [""][..0] == [];
  }

  lemma BoundsSnoc(chunks: seq<string>, c: string, maximum: nat)
    requires AllAtMost(chunks, maximum + 1) && |c| <= maximum + 1 && AllAtLeast(chunks, Least(maximum))
    ensures AllAtMost(chunks + [c], maximum + 1)
    ensures |c| >= Least(maximum) ==> AllAtLeast(chunks + [c], Least(maximum))
  {
  }

  lemma CountBounded(chunks: seq<string>, least: int)
    requires chunks != [] && chunks[|chunks| - 1] != "" && AllAtLeast(chunks[..|chunks| - 1], least)
    ensures (|chunks| - 1) * least < |Concatenated(chunks)|
  {
    ConcatenatedLength(chunks[..|chunks| - 1], least);
  }

  lemma NothingCut(answer: string, maximum: nat)
    ensures Cuts(answer, maximum, []) && Concatenated([]) == "" && AllAtMost([], maximum + 1)
            && AllAtLeast([], Least(maximum))
  {
  }

  lemma CutsSnoc(answer: string, maximum: nat, chunks: seq<string>, c: string)
    requires Cuts(answer, maximum, chunks)
    requires var done := |Concatenated(chunks)|;
             && done <= |answer| && answer[..done] == Concatenated(chunks)
             && |c| <= |answer| - done && c == answer[done..][..|c|] && CutAt(answer[done..], maximum, |c|)
    ensures Cuts(answer, maximum, chunks + [c])
  {
    var more := chunks + [c];
    forall i | 0 <= i < |more|
      ensures var done := |Concatenated(more[..i])|;
              done <= |answer| && answer[..done] == Concatenated(more[..i])
              && |more[i]| <= |answer| - done && more[i] == answer[done..][..|more[i]|]
              && CutAt(answer[done..], maximum, |more[i]|)
    {
      if i < |chunks| {
        assert more[..i] == chunks[..i] && more[i] == chunks[i];
      } else {
        assert more[..i] == chunks;
      }
    }
  }

  /** A cut exceeds the maximum exactly when a space follows the maximum. */
  lemma ExceedsExactly(text: string, maximum: nat, n: nat)
    requires maximum >= 1 && CutAt(text, maximum, n)
    ensures n > maximum <==> |text| > maximum && text[maximum] == ' '
  {
  }

  /** Some text still to be cut has a space right after the maximum. */
  ghost predicate SpaceAtMaximum(answer: string, maximum: nat, chunks: seq<string>)
    requires Cuts(answer, maximum, chunks)
  {
    exists i :: 0 <= i < |chunks|
                && var rest := answer[|Concatenated(chunks[..i])|..];
                   |rest| > maximum && rest[maximum] == ' '
  }

  /** The maximum bounds the chunks if and only if no text still to be cut has a space there. */
  lemma WithinMaximumExactly(answer: string, maximum: nat, chunks: seq<string>)
    requires maximum >= 1 && Cuts(answer, maximum, chunks)
    ensures AllAtMost(chunks, maximum) <==> !SpaceAtMaximum(answer, maximum, chunks)
  {
    hide CutAt;
    forall i | 0 <= i < |chunks|
      ensures var rest := answer[|Concatenated(chunks[..i])|..];
              |chunks[i]| > maximum <==> |rest| > maximum && rest[maximum] == ' '
    {
      ExceedsExactly(answer[|Concatenated(chunks[..i])|..], maximum, |chunks[i]|);
    }
  }

  /** It is exceeded: the first chunk of "ab c" has three characters when at most two are asked for. */
  lemma MaximumIsExceeded(chunks: seq<string>)
    requires Cuts("ab c", 2, chunks) && chunks != []
    ensures chunks[0] == "ab " && !AllAtMost(chunks, 2)
  {
    var text := "ab c";
    assert chunks[..0] == [] && text[0..] == text;
    ExceedsExactly(text, 2, |chunks[0]|);
  }
}
