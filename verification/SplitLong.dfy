/** `_split_long`: very long paragraphs become blocks of whole sentences. */
module SplitLong {
  import opened Text
  import opened SentenceRules
  import opened SplitSentences

  const MAX_BLOCK_CHARS: nat := 1000

  /** At most one block long, or exactly one sentence of the text. */
  ghost predicate FitsBlock(t: string, spans: seq<Span>, piece: string) {
    |piece| <= MAX_BLOCK_CHARS || exists s {:trigger s in spans} :: s in spans && s.0 <= s.1 <= |t| && piece == t[s.0..s.1]
  }

  function Ceiling(a: nat, b: nat): (c: nat)
    requires b > 0
    ensures (c as int - 1) * b < a <= c * b
  {
    (a + b - 1) / b
  }

  /** The non-space text up to `start` is in `pieces`, each fitting a block. */
  ghost predicate Saved(r: Rules, t: string, spans: seq<Span>, pieces: seq<string>, start: nat) {
    && start <= |t|
    && NonSpace(r.spaces, Joined(pieces)) == NonSpace(r.spaces, t[..start])
    && (forall p <- pieces :: p != [] && FitsBlock(t, spans, p))
  }

  /** The part seen but not saved yet is empty, or holds a sentence and is below an even share. */
  ghost predicate BelowShare(ws: set<char>, t: string, start: nat, previousEnd: nat) {
    && start <= previousEnd <= |t|
    && (start < previousEnd ==> previousEnd - start < MAX_BLOCK_CHARS && !AllSpace(ws, t, start, previousEnd))
  }

  /** Sentence `i` is all there is between the end before it and its own end. */
  ghost predicate SentenceAt(ws: set<char>, t: string, spans: seq<Span>, i: nat, previousEnd: nat) {
    && i < |spans|
    && previousEnd <= spans[i].0 < spans[i].1 <= |t|
    && AllSpace(ws, t, previousEnd, spans[i].0)
    && t[spans[i].0] !in ws && t[spans[i].1 - 1] !in ws
  }

  method Split(r: Rules, t: string) returns (pieces: seq<string>)
    ensures |t| <= MAX_BLOCK_CHARS ==> pieces == [t]
    ensures t != [] ==> forall p <- pieces :: p != []
    ensures NonSpace(r.spaces, Joined(pieces)) == NonSpace(r.spaces, t)
    ensures forall p <- pieces :: FitsBlock(t, Sentences(r, t), p)
    ensures Unmarked(r, t) ==> forall p <- pieces :: |p| <= MAX_BLOCK_CHARS
    ensures |t| > MAX_BLOCK_CHARS ==>
              exists cuts :: Greedy(Sentences(r, t), EvenShare(|t|, Ceiling(|t|, MAX_BLOCK_CHARS)), cuts) && CutAt(r.spaces, t, cuts, pieces)
  {
    if |t| <= MAX_BLOCK_CHARS {
      assert Joined([t]) == t;
      return [t];
    }
    var spans := SplitSentences.Split(r, t, MAX_BLOCK_CHARS);
    SentencePlaces(r, t);
    ghost var cuts;
    pieces, cuts := Gather(r, t, spans);
    assert t[..|t|] == t;
    PlainPieces(r, t, pieces);
  }

  /** The sentences are where the text is, and there is only whitespace around them. */
  ghost predicate Covering(ws: set<char>, t: string, spans: seq<Span>) {
    && (forall i {:trigger SentenceAt(ws, t, spans, i, EndBefore(spans, i))} :: 0 <= i < |spans| ==>
          SentenceAt(ws, t, spans, i, EndBefore(spans, i)))
    && EndBefore(spans, |spans|) <= |t|
    && AllSpace(ws, t, EndBefore(spans, |spans|), |t|)
  }

  // ── Where the pieces end ────────────────────────────────────────────────────────────

  /** At least an even share of `total` characters. */
  function EvenShare(total: nat, parts: nat): nat -> bool { (size: nat) => size * parts >= total }

  /** A piece from `start` on is not complete with the sentences before `i`: none of them gave it its even
      share, and each but the first fitted into the block. */
  ghost predicate Incomplete(spans: seq<Span>, share: nat -> bool, start: nat, i: nat)
    requires i <= |spans|
  {
    forall j :: 1 <= j < i && EndBefore(spans, j) > start ==>
      !share(EndBefore(spans, j) - start) && spans[j].1 - start <= MAX_BLOCK_CHARS
  }

  /** The piece from `a` to `b` ends with the first sentence that gives it its even share, or before the
      first one that does not fit. */
  ghost predicate EndsAt(spans: seq<Span>, share: nat -> bool, a: nat, b: nat) {
    exists i :: 1 <= i <= |spans| && EndsBefore(spans, share, a, b, i)
  }

  ghost predicate EndsBefore(spans: seq<Span>, share: nat -> bool, a: nat, b: nat, i: nat)
    requires i <= |spans|
  {
    && a < b == EndBefore(spans, i) && Incomplete(spans, share, a, i)
    && (share(b - a) || (i < |spans| && spans[i].1 - a > MAX_BLOCK_CHARS))
  }

  ghost predicate Greedy(spans: seq<Span>, share: nat -> bool, cuts: seq<nat>) {
    && cuts != [] && cuts[0] == 0
    && (forall k :: 0 <= k < |cuts| - 1 ==> EndsAt(spans, share, cuts[k], cuts[k + 1]))
  }

  /** The pieces are the text between the cuts, and what is left after the last one. */
  ghost predicate CutAt(ws: set<char>, t: string, cuts: seq<nat>, pieces: seq<string>) {
    && 1 <= |cuts| <= |pieces| + 1 && CutSoFar(ws, t, cuts, pieces[..|cuts| - 1])
    && var tail := Strip(ws, t[cuts[|cuts| - 1]..]);
       pieces[|cuts| - 1..] == if tail == [] then [] else [tail]
  }

  ghost predicate CutSoFar(ws: set<char>, t: string, cuts: seq<nat>, pieces: seq<string>) {
    && |cuts| == |pieces| + 1 && cuts[|pieces|] <= |t|
    && (forall k :: 0 <= k < |pieces| ==> IsBetween(ws, t, cuts, k, pieces[k]))
  }

  ghost predicate IsBetween(ws: set<char>, t: string, cuts: seq<nat>, k: nat, piece: string) {
    k + 1 < |cuts| && cuts[k] <= cuts[k + 1] <= |t| && piece == Strip(ws, t[cuts[k]..cuts[k + 1]])
  }

  lemma CutMore(ws: set<char>, t: string, spans: seq<Span>, share: nat -> bool, cuts: seq<nat>, pieces: seq<string>, b: nat)
    requires Greedy(spans, share, cuts) && CutSoFar(ws, t, cuts, pieces) && b <= |t|
    requires EndsAt(spans, share, cuts[|pieces|], b)
    ensures Greedy(spans, share, cuts + [b]) && CutSoFar(ws, t, cuts + [b], pieces + [Strip(ws, t[cuts[|pieces|]..b])])
  {
  }

  lemma {:induction false} EndsAscend(ws: set<char>, t: string, spans: seq<Span>, j: nat, i: nat)
    requires Covering(ws, t, spans) && j <= i <= |spans|
    ensures EndBefore(spans, j) <= EndBefore(spans, i) <= |t|
  {
    if i > 0 {
      assert SentenceAt(ws, t, spans, i - 1, EndBefore(spans, i - 1));
      if j < i { EndsAscend(ws, t, spans, j, i - 1); }
    }
  }

  lemma StartsNew(ws: set<char>, t: string, spans: seq<Span>, share: nat -> bool, i: nat)
    requires Covering(ws, t, spans) && i <= |spans|
    ensures Incomplete(spans, share, EndBefore(spans, i), i)
  {
    forall j | 1 <= j < i
      ensures EndBefore(spans, j) <= EndBefore(spans, i)
    {
      EndsAscend(ws, t, spans, j, i);
    }
  }

  /** The source's loop over the sentences. */
  method Gather(r: Rules, t: string, spans: seq<Span>) returns (pieces: seq<string>, ghost cuts: seq<nat>)
    requires Covering(r.spaces, t, spans)
    ensures Saved(r, t, spans, pieces, |t|)
    ensures Greedy(spans, EvenShare(|t|, Ceiling(|t|, MAX_BLOCK_CHARS)), cuts) && CutAt(r.spaces, t, cuts, pieces)
  {
    var parts := Ceiling(|t|, MAX_BLOCK_CHARS);
    var share := EvenShare(|t|, parts);
    BelowBlock(|t|, parts);
    pieces, cuts := [], [0];
    var start: nat, previousEnd: nat := 0, 0;
    for i := 0 to |spans|
      invariant previousEnd == EndBefore(spans, i)
      invariant Saved(r, t, spans, pieces, start)
      invariant BelowShare(r.spaces, t, start, previousEnd)
      invariant Cutting(r.spaces, t, spans, share, cuts, pieces, start, i)
    {
      pieces, start, cuts := Absorb(r, t, spans, i, spans[i].1, share, pieces, start, previousEnd, cuts);
      previousEnd := spans[i].1;
    }
    var tail := Strip(r.spaces, t[start..]);
    SaveTail(r, t, spans, pieces, start);
    CutToTheEnd(r.spaces, t, cuts, pieces);
    if tail != [] {
      pieces := pieces + [tail];
    }
  }

  lemma CutToTheEnd(ws: set<char>, t: string, cuts: seq<nat>, pieces: seq<string>)
    requires CutSoFar(ws, t, cuts, pieces)
    ensures var tail := Strip(ws, t[cuts[|pieces|]..]); CutAt(ws, t, cuts, if tail == [] then pieces else pieces + [tail])
  {
    var tail := Strip(ws, t[cuts[|pieces|]..]);
    assert (pieces + [tail])[..|pieces|] == pieces && pieces[..|pieces|] == pieces;
  }

  /** The state of the loop before sentence `i`. */
  ghost predicate Cutting(ws: set<char>, t: string, spans: seq<Span>, share: nat -> bool, cuts: seq<nat>, pieces: seq<string>,
                          start: nat, i: nat)
    requires i <= |spans|
  {
    && Greedy(spans, share, cuts) && CutSoFar(ws, t, cuts, pieces) && cuts[|pieces|] == start
    && Incomplete(spans, share, start, i)
    && (EndBefore(spans, i) > start ==> !share(EndBefore(spans, i) - start))
  }

  /** Sentence `i` does not fit any more. */
  lemma CutBefore(ws: set<char>, t: string, spans: seq<Span>, share: nat -> bool, cuts: seq<nat>, pieces: seq<string>, start: nat, i: nat)
    requires Covering(ws, t, spans) && i < |spans| && Cutting(ws, t, spans, share, cuts, pieces, start, i)
    requires start < EndBefore(spans, i) <= |t| && spans[i].1 - start > MAX_BLOCK_CHARS && i >= 1
    ensures var b := EndBefore(spans, i);
            Cutting(ws, t, spans, share, cuts + [b], pieces + [Strip(ws, t[start..b])], b, i)
  {
    assert EndsBefore(spans, share, start, EndBefore(spans, i), i);
    CutMore(ws, t, spans, share, cuts, pieces, EndBefore(spans, i));
    StartsNew(ws, t, spans, share, i);
  }

  lemma IncompleteMore(spans: seq<Span>, share: nat -> bool, start: nat, i: nat)
    requires i < |spans| && Incomplete(spans, share, start, i)
    requires EndBefore(spans, i) > start ==> !share(EndBefore(spans, i) - start) && spans[i].1 - start <= MAX_BLOCK_CHARS
    ensures Incomplete(spans, share, start, i + 1)
  {
  }

  /** With sentence `i` the piece has its even share. */
  lemma CutAfter(ws: set<char>, t: string, spans: seq<Span>, share: nat -> bool, cuts: seq<nat>, pieces: seq<string>, start: nat, i: nat)
    requires Covering(ws, t, spans) && i < |spans| && Cutting(ws, t, spans, share, cuts, pieces, start, i)
    requires EndBefore(spans, i) > start ==> spans[i].1 - start <= MAX_BLOCK_CHARS
    requires start < spans[i].1 <= |t| && share(spans[i].1 - start)
    ensures Cutting(ws, t, spans, share, cuts + [spans[i].1], pieces + [Strip(ws, t[start..spans[i].1])], spans[i].1, i + 1)
  {
    IncompleteMore(spans, share, start, i);
    assert EndsBefore(spans, share, start, spans[i].1, i + 1);
    CutMore(ws, t, spans, share, cuts, pieces, spans[i].1);
    StartsNew(ws, t, spans, share, i + 1);
  }

  /** The first half of the loop's body: the open piece is saved without sentence `i` when both together
      pass MAX_BLOCK_CHARS. */
  method MakeRoom(r: Rules, t: string, ghost spans: seq<Span>, ghost i: nat, end: nat, ghost share: nat -> bool, pieces: seq<string>,
                  start: nat, previousEnd: nat, ghost cuts: seq<nat>)
    returns (saved: seq<string>, from: nat, ghost more: seq<nat>)
    requires Covering(r.spaces, t, spans) && i < |spans| && previousEnd == EndBefore(spans, i) && end == spans[i].1
    requires Saved(r, t, spans, pieces, start) && BelowShare(r.spaces, t, start, previousEnd)
    requires Cutting(r.spaces, t, spans, share, cuts, pieces, start, i)
    ensures Saved(r, t, spans, saved, from) && BelowShare(r.spaces, t, from, previousEnd)
    ensures Cutting(r.spaces, t, spans, share, more, saved, from, i)
    ensures previousEnd > from ==> end - from <= MAX_BLOCK_CHARS
  {
    saved, from, more := pieces, start, cuts;
    if end - from > MAX_BLOCK_CHARS && previousEnd > from {
      SavePiece(r, t, spans, saved, from, previousEnd);
      CutBefore(r.spaces, t, spans, share, more, saved, from, i);
      saved, more := saved + [Strip(r.spaces, t[from..previousEnd])], more + [previousEnd];
      from := previousEnd;
    }
  }

  /** The body of the source's loop: sentence `i` arrives. The open piece is saved with it as soon as it has
      an even share. */
  method Absorb(r: Rules, t: string, ghost spans: seq<Span>, ghost i: nat, end: nat, share: nat -> bool,
                pieces: seq<string>, start: nat, previousEnd: nat, ghost cuts: seq<nat>)
    returns (saved: seq<string>, from: nat, ghost more: seq<nat>)
    requires Covering(r.spaces, t, spans) && i < |spans| && previousEnd == EndBefore(spans, i) && end == spans[i].1
    requires Saved(r, t, spans, pieces, start) && BelowShare(r.spaces, t, start, previousEnd)
    requires forall size: nat :: !share(size) ==> size < MAX_BLOCK_CHARS
    requires Cutting(r.spaces, t, spans, share, cuts, pieces, start, i)
    ensures Saved(r, t, spans, saved, from) && BelowShare(r.spaces, t, from, end)
    ensures Cutting(r.spaces, t, spans, share, more, saved, from, i + 1)
  {
    saved, from, more := MakeRoom(r, t, spans, i, end, share, pieces, start, previousEnd, cuts);
    assert SentenceAt(r.spaces, t, spans, i, previousEnd);
    saved, from, more := Close(r, t, spans, i, end, share(end - from), share, saved, from, previousEnd, more);
  }

  /** The second half of the loop's body, for a piece that is `full` or not. */
  method Close(r: Rules, t: string, ghost spans: seq<Span>, ghost i: nat, end: nat, full: bool, ghost share: nat -> bool,
               pieces: seq<string>, start: nat, previousEnd: nat, ghost cuts: seq<nat>)
    returns (saved: seq<string>, from: nat, ghost more: seq<nat>)
    requires Covering(r.spaces, t, spans) && i < |spans| && start <= previousEnd == EndBefore(spans, i) && end == spans[i].1
    requires Saved(r, t, spans, pieces, start) && Cutting(r.spaces, t, spans, share, cuts, pieces, start, i)
    requires previousEnd > start ==> end - start <= MAX_BLOCK_CHARS
    requires start <= end && full == share(end - start) && (!full ==> end - start < MAX_BLOCK_CHARS)
    ensures Saved(r, t, spans, saved, from) && BelowShare(r.spaces, t, from, end)
    ensures Cutting(r.spaces, t, spans, share, more, saved, from, i + 1)
  {
    saved, from, more := pieces, start, cuts;
    FitsWith(r.spaces, t, spans, i, from, previousEnd);
    if full {
      SavePiece(r, t, spans, saved, from, end);
      CutAfter(r.spaces, t, spans, share, more, saved, from, i);
      saved, more := saved + [Strip(r.spaces, t[from..end])], more + [end];
      from := end;
    } else {
      KeepOpen(r.spaces, t, spans, share, more, saved, from, i);
    }
  }

  lemma KeepOpen(ws: set<char>, t: string, spans: seq<Span>, share: nat -> bool, cuts: seq<nat>, pieces: seq<string>, start: nat, i: nat)
    requires i < |spans| && Cutting(ws, t, spans, share, cuts, pieces, start, i)
    requires EndBefore(spans, i) > start ==> spans[i].1 - start <= MAX_BLOCK_CHARS
    requires start <= spans[i].1 && !share(spans[i].1 - start)
    ensures Cutting(ws, t, spans, share, cuts, pieces, start, i + 1)
  {
    IncompleteMore(spans, share, start, i);
  }

  lemma FitsWith(ws: set<char>, t: string, spans: seq<Span>, i: nat, from: nat, previousEnd: nat)
    requires Covering(ws, t, spans) && i < |spans| && from <= previousEnd == EndBefore(spans, i)
    requires previousEnd > from ==> spans[i].1 - from <= MAX_BLOCK_CHARS
    ensures from < spans[i].1 <= |t| && !AllSpace(ws, t, from, spans[i].1)
    ensures FitsBlock(t, spans, Strip(ws, t[from..spans[i].1]))
  {
    assert SentenceAt(ws, t, spans, i, previousEnd);
    assert t[spans[i].0] !in ws;
    if spans[i].1 - from > MAX_BLOCK_CHARS {
      StripsToSentence(ws, t, from, spans[i].0, spans[i].1);
      assert spans[i] in spans;
    }
  }

  lemma PlainPieces(r: Rules, t: string, pieces: seq<string>)
    requires forall p <- pieces :: FitsBlock(t, Sentences(r, t), p)
    ensures Unmarked(r, t) ==> forall p <- pieces :: |p| <= MAX_BLOCK_CHARS
  {
    if Unmarked(r, t) {
      SentencesWithinCap(r, t, MAX_BLOCK_CHARS);
    }
  }

  function EndBefore(spans: seq<Span>, i: nat): nat
    requires i <= |spans|
  {
    if i == 0 then 0 else spans[i - 1].1
  }

  ghost function Sentences(r: Rules, t: string): seq<Span> { Spans(r.spaces, Windowed(r, MAX_BLOCK_CHARS), t, 0) }

  lemma SentencePlaces(r: Rules, t: string)
    ensures Covering(r.spaces, t, Sentences(r, t))
  {
    forall i | 0 <= i < |Sentences(r, t)|
      ensures SentenceAt(r.spaces, t, Sentences(r, t), i, EndBefore(Sentences(r, t), i))
    {
      SentencePlace(r, t, Sentences(r, t), i);
    }
    TailIsSpace(r, t, Sentences(r, t));
  }

  lemma SentencePlace(r: Rules, t: string, spans: seq<Span>, i: nat)
    requires spans == Sentences(r, t) && i < |spans|
    ensures SentenceAt(r.spaces, t, spans, i, EndBefore(spans, i))
  {
    SpansWellPlaced(r.spaces, Windowed(r, MAX_BLOCK_CHARS), t, 0);
    assert spans[i] in spans;
    forall k | EndBefore(spans, i) <= k < spans[i].0
      ensures t[k] in r.spaces
    {
      GapIsSpace(r, t, spans, i, k);
    }
  }

  lemma GapIsSpace(r: Rules, t: string, spans: seq<Span>, i: nat, k: nat)
    requires spans == Sentences(r, t) && i < |spans| && EndBefore(spans, i) <= k < spans[i].0 && k < |t|
    ensures t[k] in r.spaces
  {
    if t[k] !in r.spaces {
      SpansWellPlaced(r.spaces, Windowed(r, MAX_BLOCK_CHARS), t, 0);
      SpansCoverText(r.spaces, Windowed(r, MAX_BLOCK_CHARS), t, 0, k);
    }
  }

  lemma TailIsSpace(r: Rules, t: string, spans: seq<Span>)
    requires spans == Sentences(r, t)
    ensures EndBefore(spans, |spans|) <= |t| && AllSpace(r.spaces, t, EndBefore(spans, |spans|), |t|)
  {
    var cut, end := Windowed(r, MAX_BLOCK_CHARS), EndBefore(spans, |spans|);
    SpansWellPlaced(r.spaces, cut, t, 0);
    forall k | end <= k < |t|
      ensures t[k] in r.spaces
    {
      if t[k] !in r.spaces {
        SpansCoverText(r.spaces, cut, t, 0, k);
      }
    }
  }

  lemma SavePiece(r: Rules, t: string, spans: seq<Span>, pieces: seq<string>, start: nat, end: nat)
    requires Saved(r, t, spans, pieces, start) && start <= end <= |t|
    requires !AllSpace(r.spaces, t, start, end) && FitsBlock(t, spans, Strip(r.spaces, t[start..end]))
    ensures Saved(r, t, spans, pieces + [Strip(r.spaces, t[start..end])], end)
  {
    var piece := Strip(r.spaces, t[start..end]);
    var k :| start <= k < end && t[k] !in r.spaces;
    assert t[start..end][k - start] == t[k];
    NonSpaceStrip(r.spaces, t[start..end]);
    assert (pieces + [piece])[..|pieces|] == pieces;
    NonSpaceConcat(r.spaces, Joined(pieces), piece);
    NonSpaceConcat(r.spaces, t[..start], t[start..end]);
    assert t[..start] + t[start..end] == t[..end];
  }

  lemma SaveTail(r: Rules, t: string, spans: seq<Span>, pieces: seq<string>, start: nat)
    requires Covering(r.spaces, t, spans)
    requires Saved(r, t, spans, pieces, start) && BelowShare(r.spaces, t, start, EndBefore(spans, |spans|))
    ensures var tail := Strip(r.spaces, t[start..]);
            Saved(r, t, spans, if tail != [] then pieces + [tail] else pieces, |t|)
  {
    if Strip(r.spaces, t[start..]) != [] {
      StripBound(r.spaces, t, start, EndBefore(spans, |spans|));
      SavePiece(r, t, spans, pieces, start, |t|);
    } else {
      NothingLost(r.spaces, t, start);
      assert t[..|t|] == t;
    }
  }

  lemma StripsToSentence(ws: set<char>, t: string, start: nat, first: nat, end: nat)
    requires start <= first < end <= |t| && AllSpace(ws, t, start, first)
    requires t[first] !in ws && t[end - 1] !in ws
    ensures Strip(ws, t[start..end]) == t[first..end]
  {
    var u := t[start..end];
    SkippedSpaces(ws, u, 0);
    assert forall k :: 0 <= k < |u| ==> u[k] == t[start + k];
    var i := SkipSpaces(ws, u, 0);
    assert i >= first - start;
    assert u[first - start] !in ws;
    assert i == first - start;
  }

  lemma StripBound(ws: set<char>, t: string, start: nat, end: nat)
    requires start <= end <= |t| && AllSpace(ws, t, end, |t|)
    ensures |Strip(ws, t[start..])| <= end - start
    ensures Strip(ws, t[start..]) != [] ==> !AllSpace(ws, t, start, |t|)
    ensures t[start..] == t[start..|t|]
  {
    var u := t[start..];
    assert forall k :: 0 <= k < |u| ==> u[k] == t[start + k];
    NonSpaceStrip(ws, u);
  }

  lemma NothingLost(ws: set<char>, t: string, start: nat)
    requires start <= |t| && Strip(ws, t[start..]) == []
    ensures NonSpace(ws, t[..start]) == NonSpace(ws, t)
  {
    NonSpaceStrip(ws, t[start..]);
    NonSpaceConcat(ws, t[..start], t[start..]);
    assert t == t[..start] + t[start..];
  }

  lemma BelowBlock(total: nat, parts: nat)
    requires total <= parts * MAX_BLOCK_CHARS
    ensures forall size: nat :: !EvenShare(total, parts)(size) ==> size < MAX_BLOCK_CHARS
  {
    forall size: nat | size >= MAX_BLOCK_CHARS
      ensures EvenShare(total, parts)(size)
    {
      assert size * parts >= MAX_BLOCK_CHARS * parts;
    }
  }
}
