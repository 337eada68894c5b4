/** `LiveTextSegmenter`: arbitrary text deltas in, bounded speech fragments out. */
module LiveTextSegmenter {
  import opened Text
  import opened SentenceRules
  import opened SegmentBoundaries
  import opened FenceFilter

  datatype TextSegment = TextSegment(text: string, sourceStart: nat, sourceEnd: nat)

  // ── The text scanned so far, whatever follows it ────────────────────────────────────

  /** The text once `e` has been appended to it. */
  function Continued(t: string, e: string): string { t + e }

  /** Of the text `t`, the first `p` characters are scanned: they gave `items` and left the scan
      in `inFence` and `content`, and no continuation of `t` can change that. */
  ghost predicate Scanned(cue: string, t: string, base: nat, before: bool, p: nat, items: seq<Item>, inFence: bool,
      content: bool) {
    && p <= |t|
    && forall e {:trigger Continued(t, e)} ::
         ScanFrom(cue, Continued(t, e), 0, base, before, false) ==
         Prepend(items, ScanFrom(cue, Continued(t, e), p, base, inFence, content))
  }

  lemma ScannedMore(cue: string, t: string, x: string, base: nat, before: bool, p: nat, items: seq<Item>,
      inFence: bool, content: bool)
    requires Scanned(cue, t, base, before, p, items, inFence, content)
    ensures Scanned(cue, t + x, base, before, p, items, inFence, content)
  {
    forall e
      ensures ScanFrom(cue, Continued(t + x, e), 0, base, before, false) ==
              Prepend(items, ScanFrom(cue, Continued(t + x, e), p, base, inFence, content))
    {
      assert (t + x) + e == Continued(t, x + e);
    }
  }

  /** No fence can start in `lo..hi` of `t`, even once more text arrives. */
  ghost predicate NoFenceYet(t: string, lo: nat, hi: nat) {
    hi <= |t| && forall e {:trigger Continued(t, e)} :: NoFence(Continued(t, e), lo, hi)
  }

  lemma ScannedPlain(cue: string, t: string, base: nat, before: bool, p: nat, q: nat, items: seq<Item>)
    requires p <= q && Scanned(cue, t, base, before, p, items, false, false) && NoFenceYet(t, p, q)
    ensures Scanned(cue, t, base, before, q, items + Plain(t, p, q, base), false, false)
  {
    forall e
      ensures ScanFrom(cue, Continued(t, e), 0, base, before, false) ==
              Prepend(items + Plain(t, p, q, base), ScanFrom(cue, Continued(t, e), q, base, false, false))
    {
      var u := Continued(t, e);
      ScanPlain(cue, u, p, q, base);
      PlainSame(u, p, q, t, 0, base, base);
      PrependTwice(items, Plain(t, p, q, base), ScanFrom(cue, u, q, base, false, false));
    }
  }

  lemma ScannedSkip(cue: string, t: string, base: nat, before: bool, p: nat, q: nat, items: seq<Item>, content: bool)
    requires p <= q && Scanned(cue, t, base, before, p, items, true, content) && NoFenceYet(t, p, q)
    ensures Scanned(cue, t, base, before, q, items, true, content || p < q)
  {
    forall e
      ensures ScanFrom(cue, Continued(t, e), 0, base, before, false) ==
              Prepend(items, ScanFrom(cue, Continued(t, e), q, base, true, content || p < q))
    {
      ScanSkipped(cue, Continued(t, e), p, q, base, content);
    }
  }

  /** The text ends here: what is left is scanned without waiting for more. */
  lemma ScannedLast(cue: string, t: string, base: nat, before: bool, p: nat, items: seq<Item>, inFence: bool, content: bool)
    requires Scanned(cue, t, base, before, p, items, inFence, content) && NoFence(t, p, |t|)
    requires !inFence ==> !content
    ensures ScanFrom(cue, t, 0, base, before, false) ==
            if inFence then Scan(items, !content && p == |t|) else Scan(items + Plain(t, p, |t|, base), false)
  {
    assert Continued(t, []) == t;
    if inFence {
      ScanSkipped(cue, t, p, |t|, base, content);
    } else {
      ScanPlain(cue, t, p, |t|, base);
    }
  }

  lemma ScannedEmpty(cue: string, base: nat, before: bool, p: nat, items: seq<Item>, inFence: bool, content: bool)
    requires Scanned(cue, [], base, before, p, items, inFence, content)
    ensures items == []
  {
    assert Continued([], []) == [];
  }

  lemma RecentIsOrdered(cue: string, pre: string, t: string, before: bool, p: nat, items: seq<Item>, inFence: bool,
      content: bool)
    requires Scanned(cue, t, |pre|, before, p, items, inFence, content)
    ensures Ordered(pre + t, items, |pre|, |pre| + |t|)
  {
    assert Continued(t, []) == t;
    ScanIsOrdered(cue, pre, t, 0, before, false);
    OrderedPrefix(pre + t, items, ScanFrom(cue, t, p, |pre|, inFence, content).items, |pre|, |pre| + |t|);
  }

  lemma OrderedPrefix(source: string, a: seq<Item>, b: seq<Item>, lo: nat, hi: nat)
    requires Ordered(source, a + b, lo, hi)
    ensures Ordered(source, a, lo, hi)
  {
    forall i, j | 0 <= i < j < |a|
      ensures InOrder(source, a[i], a[j])
    {
      assert (a + b)[i] == a[i] && (a + b)[j] == a[j];
    }
    assert forall i :: 0 <= i < |a| ==> (a + b)[i] == a[i];
  }

  /** `find("```")`. */
  function FindFence(raw: string, i: nat): (at: int)
    requires forall k {:trigger FenceAt(raw, k)} :: 0 <= k < i ==> !FenceAt(raw, k)
    ensures at == -1 || at >= 0
    ensures if at == -1 then Fenceless(raw) else FirstFence(raw, at)
    decreases |raw| - i
  {
    if i >= |raw| then -1 else if FenceAt(raw, i) then i else FindFence(raw, i + 1)
  }

  function TrailingTicks(raw: string): (n: nat)
    ensures n <= |raw| && n <= 2
    ensures n < |raw| && n < 2 ==> raw[|raw| - n - 1] != '`'
  {
    if |raw| == 0 || raw[|raw| - 1] != '`' then 0 else if |raw| >= 2 && raw[|raw| - 2] == '`' then 2 else 1
  }

  /** Before the first fence, and clear of ticks at the end that a later delta could complete. */
  lemma NoFenceBefore(t: string, raw: string, size: nat)
    requires |raw| <= |t| && raw == t[|t| - |raw|..] && size <= |raw|
    requires forall k {:trigger FenceAt(raw, k)} :: 0 <= k < size ==> !FenceAt(raw, k)
    requires FenceAt(raw, size) || size + 2 <= |raw| || size == 0 || raw[size - 1] != '`'
    ensures NoFenceYet(t, |t| - |raw|, |t| - |raw| + size)
  {
    var p := |t| - |raw|;
    forall e: string, i: nat | p <= i < p + size
      ensures !FenceAt(Continued(t, e), i)
    {
      assert !FenceAt(raw, i - p);
      assert forall k :: p <= k < |t| ==> Continued(t, e)[k] == raw[k - p];
    }
  }

  lemma FenceInRaw(t: string, raw: string, k: nat)
    requires |raw| <= |t| && raw == t[|t| - |raw|..]
    ensures FenceAt(raw, k) <==> FenceAt(t, |t| - |raw| + k)
  {
    assert forall k :: 0 <= k < |raw| ==> raw[k] == t[|t| - |raw| + k];
  }

  ghost predicate FirstFence(raw: string, at: nat) {
    FenceAt(raw, at) && forall k {:trigger FenceAt(raw, k)} :: 0 <= k < at ==> !FenceAt(raw, k)
  }

  ghost predicate Fenceless(raw: string) {
    forall k {:trigger FenceAt(raw, k)} :: 0 <= k ==> !FenceAt(raw, k)
  }

  /** The same characters at another place of another text are the same items. */
  lemma {:induction false} PlainSame(t: string, lo: nat, hi: nat, u: string, shift: int, base: nat, start: nat)
    requires lo <= hi <= |t| && 0 <= lo + shift && hi + shift <= |u| && base == start + shift
    requires forall k :: lo <= k < hi ==> t[k] == u[k + shift]
    ensures Plain(t, lo, hi, base) == Plain(u, lo + shift, hi + shift, start)
    decreases hi - lo
  {
    if lo < hi {
      PlainSame(t, lo + 1, hi, u, shift, base, start);
    }
  }

  lemma PlainShift(t: string, done: string, raw: string, size: nat, base: nat)
    requires t == done + raw && size <= |raw|
    ensures Plain(raw, 0, size, base + |done|) == Plain(t, |done|, |done| + size, base)
  {
    PlainSame(raw, 0, size, t, |done|, base + |done|, base);
  }

  lemma PlainTake(raw: string, size: nat, start: nat)
    requires size <= |raw|
    ensures Plain(raw[..size], 0, size, start) == Plain(raw, 0, size, start)
  {
    PlainSame(raw[..size], 0, size, raw, 0, start, start);
  }

  lemma CloseStep(cue: string, t: string, done: string, raw: string, base: nat, before: bool, items: seq<Item>,
      content: bool, at: nat)
    requires t == done + raw && FirstFence(raw, at)
    requires Scanned(cue, t, base, before, |done|, items, true, content)
    ensures at + 3 <= |raw| && Scanned(cue, t, base, before, |done| + at + 3, items, false, false)
  {
    assert raw == t[|done|..];
    var p := |done|;
    NoFenceBefore(t, raw, at);
    FenceInRaw(t, raw, at);
    ScannedSkip(cue, t, base, before, p, p + at, items, content);
    assert items + [] == items;
  }

  lemma OpenStep(cue: string, t: string, done: string, raw: string, base: nat, before: bool, items: seq<Item>)
    requires t == done + raw && FenceAt(raw, 0)
    requires Scanned(cue, t, base, before, |done|, items, false, false)
    ensures Scanned(cue, t, base, before, |done| + 3, items + Spoken(cue, 0, base + |done|), true, false)
  {
    assert raw == t[|done|..];
    FenceInRaw(t, raw, 0);
  }

  lemma SkipStep(cue: string, t: string, done: string, raw: string, base: nat, before: bool, items: seq<Item>,
      content: bool, size: nat)
    requires t == done + raw && Fenceless(raw)
    requires size + 2 <= |raw| || size == 0
    requires Scanned(cue, t, base, before, |done|, items, true, content)
    ensures Scanned(cue, t, base, before, |done| + size, items, true, content || 0 < size)
  {
    assert raw == t[|done|..];
    NoFenceBefore(t, raw, size);
    ScannedSkip(cue, t, base, before, |done|, |done| + size, items, content);
  }

  /** No fence in the first `size` characters, nor one that could still form across their end. */
  ghost predicate SafePlain(raw: string, size: nat) {
    && size <= |raw|
    && (forall k {:trigger FenceAt(raw, k)} :: 0 <= k < size ==> !FenceAt(raw, k))
    && (FenceAt(raw, size) || size + 2 <= |raw| || size == 0 || raw[size - 1] != '`')
  }

  lemma PlainStep(cue: string, t: string, done: string, raw: string, base: nat, before: bool, items: seq<Item>, size: nat)
    requires t == done + raw && SafePlain(raw, size)
    requires Scanned(cue, t, base, before, |done|, items, false, false)
    ensures Scanned(cue, t, base, before, |done| + size, items + Plain(raw[..size], 0, size, base + |done|), false, false)
  {
    assert raw == t[|done|..];
    NoFenceBefore(t, raw, size);
    ScannedPlain(cue, t, base, before, |done|, |done| + size, items);
    PlainShift(t, done, raw, size, base);
    PlainTake(raw, size, base + |done|);
  }

  lemma LastStep(cue: string, t: string, done: string, raw: string, base: nat, before: bool, items: seq<Item>,
      inFence: bool, content: bool)
    requires t == done + raw && Fenceless(raw) && (content ==> inFence && raw != [])
    requires Scanned(cue, t, base, before, |done|, items, inFence, content)
    ensures ScanFrom(cue, t, 0, base, before, false) ==
            if inFence then Scan(items, raw == []) else Scan(items + Plain(raw, 0, |raw|, base + |done|), false)
  {
    assert raw == t[|done|..];
    NoFenceLeft(t, raw);
    ScannedLast(cue, t, base, before, |done|, items, inFence, content);
    PlainShift(t, done, raw, |raw|, base);
  }

  lemma NoFenceLeft(t: string, raw: string)
    requires |raw| <= |t| && raw == t[|t| - |raw|..]
    requires Fenceless(raw)
    ensures NoFence(t, |t| - |raw|, |t|)
  {
    var p := |t| - |raw|;
    forall i: nat | p <= i < |t|
      ensures !FenceAt(t, i)
    {
      FenceInRaw(t, raw, i - p);
    }
  }

  // ── Fragments cut from the buffer ───────────────────────────────────────────────────

  function Zip(chars: seq<char>, positions: seq<(nat, nat)>): (items: seq<Item>)
    requires |chars| == |positions|
  {
    if chars == [] then [] else [Item(chars[0], positions[0].0, positions[0].1)] + Zip(chars[1..], positions[1..])
  }

  function Chars(items: seq<Item>): (chars: string)
    ensures |chars| == |items|
  {
    if items == [] then [] else [items[0].ch] + Chars(items[1..])
  }

  function Ranges(items: seq<Item>): (positions: seq<(nat, nat)>)
    ensures |positions| == |items|
  {
    if items == [] then [] else [(items[0].start, items[0].end)] + Ranges(items[1..])
  }

  lemma {:induction false} ZipUnzip(items: seq<Item>)
    ensures Zip(Chars(items), Ranges(items)) == items
  {
    if items != [] { ZipUnzip(items[1..]); }
  }

  lemma {:induction false} UnzipZip(chars: seq<char>, positions: seq<(nat, nat)>)
    requires |chars| == |positions|
    ensures Chars(Zip(chars, positions)) == chars
    ensures chars != [] ==> Zip(chars, positions) != []
  {
    if chars != [] { UnzipZip(chars[1..], positions[1..]); }
  }

  lemma {:induction false} ZipConcat(c: seq<char>, p: seq<(nat, nat)>, d: seq<char>, q: seq<(nat, nat)>)
    requires |c| == |p| && |d| == |q|
    ensures Zip(c + d, p + q) == Zip(c, p) + Zip(d, q)
  {
    if c == [] {
      assert c + d == d && p + q == q;
    } else {
      assert (c + d)[1..] == c[1..] + d && (p + q)[1..] == p[1..] + q;
      ZipConcat(c[1..], p[1..], d, q);
    }
  }

  function Flat(fragments: seq<seq<Item>>): seq<Item> {
    if fragments == [] then [] else Flat(fragments[..|fragments| - 1]) + fragments[|fragments| - 1]
  }

  lemma AppendNothing<T>(a: seq<T>)
    ensures a + [] == a
  {
  }

  lemma TakeFragment(fragments: seq<seq<Item>>, chars: seq<char>, positions: seq<(nat, nat)>, b: nat)
    requires 1 <= b <= |chars| == |positions|
    ensures var fragment := Zip(chars[..b], positions[..b]);
            && Chars(fragment) == chars[..b] && fragment != []
            && Flat(fragments + [fragment]) + Zip(chars[b..], positions[b..]) == Flat(fragments) + Zip(chars, positions)
  {
    var fragment := Zip(chars[..b], positions[..b]);
    UnzipZip(chars[..b], positions[..b]);
    ZipConcat(chars[..b], positions[..b], chars[b..], positions[b..]);
    assert chars == chars[..b] + chars[b..] && positions == positions[..b] + positions[b..];
  }

  function FirstStart(items: seq<Item>): nat {
    if items == [] then 0
    else if |items| == 1 then items[0].start
    else var rest := FirstStart(items[1..]); if items[0].start < rest then items[0].start else rest
  }

  function LastEnd(items: seq<Item>): nat {
    if items == [] then 0
    else if |items| == 1 then items[0].end
    else var rest := LastEnd(items[1..]); if items[0].end > rest then items[0].end else rest
  }

  /** The segment for one fragment of the buffer. */
  function SegmentOf(r: Rules, items: seq<Item>): TextSegment {
    TextSegment(r.clean(Chars(items)), FirstStart(items), LastEnd(items))
  }

  /** The segments spoken for some fragments: those with text or other content. */
  function SegmentsOf(r: Rules, fragments: seq<seq<Item>>): seq<TextSegment> {
    if fragments == [] then []
    else
      var last := fragments[|fragments| - 1];
      SegmentsOf(r, fragments[..|fragments| - 1]) +
      if SegmentOf(r, last).text != [] || Strip(r.spaces, Chars(last)) != [] then [SegmentOf(r, last)] else []
  }

  // ── Where the buffer is cut ─────────────────────────────────────────────────────────

  /** A buffer `t` is cut at `b`: at the next boundary; only without one, at its end when everything has to
      be spoken, or at the idle boundary in a pause. */
  ghost predicate CutHere(r: Rules, l: Limits, t: string, b: nat, force: bool, idle: bool)
    requires l.maxChars >= 1 && l.maxWords >= 1
  {
    var next := NextBoundary(r, l, t);
    && 1 <= b <= |t|
    && (next == Some(b) || (next.None? && ((force && b == |t|) || (!force && idle && IdleBoundary(r, t) == Some(b)))))
  }

  /** Nothing in the buffer is ready to be spoken. */
  ghost predicate Ready(r: Rules, l: Limits, t: string, force: bool, idle: bool)
    requires l.maxChars >= 1 && l.maxWords >= 1
  {
    t != [] ==> !force && NextBoundary(r, l, t).None? && (idle ==> IdleBoundary(r, t).None?)
  }

  /** The text of some fragments and what is left after them. */
  function Together(pieces: seq<seq<Item>>, rest: string): string {
    if pieces == [] then rest else Chars(pieces[0]) + Together(pieces[1..], rest)
  }

  /** Each fragment was cut at the boundary of what was in the buffer then, down to `rest`. */
  ghost predicate CutUp(r: Rules, l: Limits, pieces: seq<seq<Item>>, rest: string, force: bool, idle: bool)
    requires l.maxChars >= 1 && l.maxWords >= 1
  {
    pieces != [] ==>
      && CutHere(r, l, Together(pieces, rest), |pieces[0]|, force, idle)
      && CutUp(r, l, pieces[1..], rest, force, idle)
  }

  lemma {:induction false} TogetherMore(pieces: seq<seq<Item>>, piece: seq<Item>, rest: string)
    ensures Together(pieces + [piece], rest) == Together(pieces, Chars(piece) + rest)
  {
    if pieces == [] {
      assert [piece][1..] == [];
    } else {
      assert (pieces + [piece])[1..] == pieces[1..] + [piece];
      TogetherMore(pieces[1..], piece, rest);
    }
  }

  /** The loop cuts one piece more off the rest. */
  lemma {:induction false} CutMore(r: Rules, l: Limits, pieces: seq<seq<Item>>, piece: seq<Item>, rest: string, force: bool, idle: bool)
    requires l.maxChars >= 1 && l.maxWords >= 1
    requires CutUp(r, l, pieces, Chars(piece) + rest, force, idle) && CutHere(r, l, Chars(piece) + rest, |piece|, force, idle)
    ensures CutUp(r, l, pieces + [piece], rest, force, idle)
  {
    TogetherMore(pieces, piece, rest);
    if pieces == [] {
      assert [piece][1..] == [];
    } else {
      assert (pieces + [piece])[1..] == pieces[1..] + [piece];
      CutMore(r, l, pieces[1..], piece, rest, force, idle);
    }
  }

  lemma PieceTaken(before: seq<seq<Item>>, after: seq<seq<Item>>, piece: seq<Item>, left: string, rest: string, b: nat)
    requires after == before + [piece] && b <= |left| && Chars(piece) == left[..b] && rest == left[b..]
    ensures left == Chars(piece) + rest && |piece| == b && after[..|before|] == before
    ensures Together(after, rest) == Together(before, left)
  {
    TogetherMore(before, piece, rest);
  }

  /** A piece is cut at a boundary of some part of what is left of the text. */
  ghost predicate CutWithin(r: Rules, l: Limits, left: string, b: nat)
    requires l.maxChars >= 1 && l.maxWords >= 1
  {
    exists m: nat, force: bool, idle: bool :: m <= |left| && CutHere(r, l, left[..m], b, force, idle)
  }

  /** Every fragment was, in whatever portions the text arrived; `rest` is still to be cut. */
  ghost predicate AllCut(r: Rules, l: Limits, fragments: seq<seq<Item>>, rest: string)
    requires l.maxChars >= 1 && l.maxWords >= 1
  {
    fragments != [] ==>
      CutWithin(r, l, Together(fragments, rest), |fragments[0]|) && AllCut(r, l, fragments[1..], rest)
  }

  lemma {:induction false} TogetherLonger(pieces: seq<seq<Item>>, rest: string, more: string)
    ensures Together(pieces, rest + more) == Together(pieces, rest) + more
  {
    if pieces != [] { TogetherLonger(pieces[1..], rest, more); }
  }

  lemma WithinLonger(r: Rules, l: Limits, left: string, more: string, b: nat)
    requires l.maxChars >= 1 && l.maxWords >= 1 && CutWithin(r, l, left, b)
    ensures CutWithin(r, l, left + more, b)
  {
    var m: nat, force: bool, idle: bool :| m <= |left| && CutHere(r, l, left[..m], b, force, idle);
    assert (left + more)[..m] == left[..m];
  }

  lemma {:induction false} AllCutLonger(r: Rules, l: Limits, fragments: seq<seq<Item>>, rest: string, more: string)
    requires l.maxChars >= 1 && l.maxWords >= 1 && AllCut(r, l, fragments, rest)
    ensures AllCut(r, l, fragments, rest + more)
  {
    if fragments != [] {
      TogetherLonger(fragments, rest, more);
      WithinLonger(r, l, Together(fragments, rest), more, |fragments[0]|);
      AllCutLonger(r, l, fragments[1..], rest, more);
    }
  }

  lemma {:induction false} CutUpIsCut(r: Rules, l: Limits, pieces: seq<seq<Item>>, rest: string, force: bool, idle: bool)
    requires l.maxChars >= 1 && l.maxWords >= 1 && CutUp(r, l, pieces, rest, force, idle)
    ensures AllCut(r, l, pieces, rest)
  {
    if pieces != [] {
      var left := Together(pieces, rest);
      assert left[..|left|] == left;
      CutUpIsCut(r, l, pieces[1..], rest, force, idle);
    }
  }

  lemma {:induction false} AllCutConcat(r: Rules, l: Limits, a: seq<seq<Item>>, b: seq<seq<Item>>, rest: string)
    requires l.maxChars >= 1 && l.maxWords >= 1 && AllCut(r, l, a, Together(b, rest)) && AllCut(r, l, b, rest)
    ensures AllCut(r, l, a + b, rest)
  {
    if a == [] {
      assert a + b == b;
    } else {
      assert (a + b)[1..] == a[1..] + b;
      TogetherConcat(a, b, rest);
      AllCutConcat(r, l, a[1..], b, rest);
    }
  }

  lemma {:induction false} TogetherConcat(a: seq<seq<Item>>, b: seq<seq<Item>>, rest: string)
    ensures Together(a + b, rest) == Together(a, Together(b, rest))
  {
    if a == [] {
      assert a + b == b;
    } else {
      assert (a + b)[1..] == a[1..] + b;
      TogetherConcat(a[1..], b, rest);
    }
  }

  /** One call: the buffer `was`, with whatever it was given, is cut into new fragments. */
  lemma AllCutMore(r: Rules, l: Limits, fragments: seq<seq<Item>>, was: string, pieces: seq<seq<Item>>, rest: string, force: bool, idle: bool)
    requires l.maxChars >= 1 && l.maxWords >= 1 && AllCut(r, l, fragments, was)
    requires CutUp(r, l, pieces, rest, force, idle) && was <= Together(pieces, rest)
    ensures AllCut(r, l, fragments + pieces, rest)
  {
    var all := Together(pieces, rest);
    AllCutLonger(r, l, fragments, was, all[|was|..]);
    assert was + all[|was|..] == all;
    CutUpIsCut(r, l, pieces, rest, force, idle);
    AllCutConcat(r, l, fragments, pieces, rest);
  }

  /** A fragment with a character that is no whitespace is spoken, after the segments of those before it. */
  lemma {:induction false} FragmentIsSpoken(r: Rules, fragments: seq<seq<Item>>, k: nat, j: nat)
    requires k < |fragments| && j < |fragments[k]| && Chars(fragments[k])[j] !in r.spaces
    ensures var n := |SegmentsOf(r, fragments[..k])|;
            n < |SegmentsOf(r, fragments)| && SegmentsOf(r, fragments)[n] == SegmentOf(r, fragments[k])
  {
    var before := fragments[..|fragments| - 1];
    if k < |before| {
      assert fragments[..k] == before[..k];
      FragmentIsSpoken(r, before, k, j);
    } else {
      var t := Chars(fragments[k]);
      NonSpaceStrip(r.spaces, t);
      assert !AllSpace(r.spaces, t, 0, |t|);
    }
  }

  // ── The order of the segments' source ranges ────────────────────────────────────────

  /** Two segments in the order they were cut: their ranges do not move back, and they overlap only
      when the cut is inside the cue for one opening fence; the overlap is that fence. */
  ghost predicate RangesInOrder(source: string, a: TextSegment, b: TextSegment) {
    && a.sourceStart <= b.sourceStart && a.sourceEnd <= b.sourceEnd
    && (a.sourceEnd <= b.sourceStart || (a.sourceEnd == b.sourceStart + 3 && FenceAt(source, b.sourceStart)))
  }

  lemma {:induction false} OrderedRange(source: string, items: seq<Item>, lo: nat, hi: nat)
    requires items != [] && Ordered(source, items, lo, hi)
    ensures FirstStart(items) == items[0].start && LastEnd(items) == items[|items| - 1].end
  {
    if |items| > 1 {
      OrderedRange(source, items[1..], lo, hi);
      assert InOrder(source, items[0], items[1]);
      assert InOrder(source, items[0], items[|items| - 1]);
    }
  }

  lemma {:induction false} FlatHolds(fragments: seq<seq<Item>>, a: nat, x: Item) returns (i: nat)
    requires a < |fragments| && x in fragments[a]
    ensures i < |Flat(fragments)| && Flat(fragments)[i] == x
  {
    var before, last := fragments[..|fragments| - 1], fragments[|fragments| - 1];
    if a < |before| {
      i := FlatHolds(before, a, x);
    } else {
      var k: nat :| k < |last| && last[k] == x;
      i := |Flat(before)| + k;
    }
  }

  lemma {:induction false} FlatOrdered(source: string, fragments: seq<seq<Item>>, a: nat, lo: nat, hi: nat)
    requires Ordered(source, Flat(fragments), lo, hi) && a < |fragments|
    ensures Ordered(source, fragments[a], lo, hi)
  {
    var before, last := fragments[..|fragments| - 1], fragments[|fragments| - 1];
    if a < |before| {
      OrderedPrefix(source, Flat(before), last, lo, hi);
      FlatOrdered(source, before, a, lo, hi);
    } else {
      OrderedSuffix(source, Flat(before), last, lo, hi);
    }
  }

  lemma OrderedSuffix(source: string, a: seq<Item>, b: seq<Item>, lo: nat, hi: nat)
    requires Ordered(source, a + b, lo, hi)
    ensures Ordered(source, b, lo, hi)
  {
    forall i, j | 0 <= i < j < |b|
      ensures InOrder(source, b[i], b[j])
    {
      assert InOrder(source, (a + b)[|a| + i], (a + b)[|a| + j]);
    }
    assert forall i :: 0 <= i < |b| ==> (a + b)[|a| + i] == b[i];
  }

  lemma {:induction false} FlatInOrder(source: string, fragments: seq<seq<Item>>, a: nat, b: nat, x: Item, y: Item, lo: nat, hi: nat)
    requires Ordered(source, Flat(fragments), lo, hi) && a < b < |fragments|
    requires x in fragments[a] && y in fragments[b]
    ensures InOrder(source, x, y)
  {
    var before, last := fragments[..|fragments| - 1], fragments[|fragments| - 1];
    if b < |before| {
      OrderedPrefix(source, Flat(before), last, lo, hi);
      FlatInOrder(source, before, a, b, x, y, lo, hi);
    } else {
      var i := FlatHolds(before, a, x);
      var j: nat :| j < |last| && last[j] == y;
      assert InOrder(source, Flat(fragments)[i], Flat(fragments)[|Flat(before)| + j]);
    }
  }

  lemma FragmentRanges(source: string, r: Rules, fragments: seq<seq<Item>>, a: nat, b: nat, hi: nat)
    requires Ordered(source, Flat(fragments), 0, hi) && a < b < |fragments|
    requires fragments[a] != [] && fragments[b] != []
    ensures RangesInOrder(source, SegmentOf(r, fragments[a]), SegmentOf(r, fragments[b]))
    ensures SegmentOf(r, fragments[b]).sourceEnd <= hi
  {
    var f, g := fragments[a], fragments[b];
    FlatOrdered(source, fragments, a, 0, hi);
    FlatOrdered(source, fragments, b, 0, hi);
    OrderedRange(source, f, 0, hi);
    OrderedRange(source, g, 0, hi);
    FlatInOrder(source, fragments, a, b, f[0], g[0], 0, hi);
    FlatInOrder(source, fragments, a, b, f[|f| - 1], g[0], 0, hi);
    FlatInOrder(source, fragments, a, b, f[|f| - 1], g[|g| - 1], 0, hi);
  }

  // ── The segmenter ───────────────────────────────────────────────────────────────────

  class Segmenter {
    const rules: Rules
    const cue: string
    const limits: Limits

    var chars: seq<char>
    var positions: seq<(nat, nat)>
    var rawPending: string
    var rawPendingStart: nat
    var sourceCursor: nat
    var inCodeFence: bool

    ghost var done: Texts                  // the texts ended by forced flushes so far
    ghost var open: string                 // the text accepted since then
    ghost var scanned: string              // its part that is no longer pending
    ghost var recent: seq<Item>            // what it has pushed into the buffer
    ghost var base: nat                    // the length of the texts done
    ghost var pushed: Scan                 // the filter over the texts done
    ghost var filtered: seq<Item>          // everything ever pushed into the buffer
    ghost var content: bool                // code was skipped since the fence opened
    ghost var fragments: seq<seq<Item>>    // everything consumed from the buffer

    ghost predicate RawValid()
      reads this
    {
      && open == scanned + rawPending && filtered == pushed.items + recent
      && sourceCursor == base + |open|
      && rawPendingStart + |rawPending| == sourceCursor
      && Scanned(cue, open, base, pushed.open, |scanned|, recent, inCodeFence, content)
      && (content ==> inCodeFence && rawPending != [])
    }

    /** What was consumed from the buffer and what is left of it is all that was ever pushed. */
    ghost predicate BufferValid()
      reads `chars, `positions, `fragments, `filtered
    {
      && limits.maxChars >= 1 && limits.maxWords >= 1
      && |chars| == |positions|
      && Flat(fragments) + Zip(chars, positions) == filtered
      && (forall f <- fragments :: f != [])
    }

    ghost predicate HistoryValid()
      reads this
    {
      base == Length(done) && pushed == Filter(cue, done)
    }

    ghost predicate Valid()
      reads this
    {
      HistoryValid() && RawValid() && BufferValid()
    }

    constructor (rules: Rules, mode: Mode, maxChars: int, maxWords: int)
      ensures Valid() && this.rules == rules && cue == CODE_BLOCK_CUE && limits == Clamped(mode, maxChars, maxWords)
      ensures done == Nothing && open == [] && fragments == [] && chars == []
    {
      this.rules := rules;
      cue := CODE_BLOCK_CUE;
      limits := Clamped(mode, maxChars, maxWords);
      chars, positions := [], [];
      rawPending, rawPendingStart, sourceCursor := "", 0, 0;
      inCodeFence := false;
      done, open, scanned, recent, content, fragments := Nothing, [], [], [], false, [];
      base, pushed, filtered := 0, Scan([], false), [];
      new;
    }

    method Append(text: string) returns (segments: seq<TextSegment>)
      requires Valid()
      modifies this
      ensures Valid() && done == old(done) && open == old(open) + text
      ensures old(fragments) <= fragments && segments == SegmentsOf(rules, fragments[|old(fragments)|..])
      ensures CutUp(rules, limits, fragments[|old(fragments)|..], chars, false, false)
      ensures text != [] ==> Ready(rules, limits, chars, false, false)
      ensures text == [] ==> fragments == old(fragments) && chars == old(chars)
      ensures old(chars) <= Together(fragments[|old(fragments)|..], chars)
    {
      if text == [] {
        return [];
      }
      Accept(text);
      ProcessRaw(false);
      segments := PopReady(false, false);
    }

    method Accept(text: string)
      requires RawValid() && BufferValid() && text != []
      modifies this`rawPending, this`rawPendingStart, this`sourceCursor, this`open
      ensures RawValid() && BufferValid() && open == old(open) + text
    {
      if rawPending == [] {
        rawPendingStart := sourceCursor;
      }
      ScannedMore(cue, open, text, base, pushed.open, |scanned|, recent, inCodeFence, content);
      assert scanned + (rawPending + text) == (scanned + rawPending) + text;
      rawPending := rawPending + text;
      sourceCursor := sourceCursor + |text|;
      open := open + text;
    }

    /** An explicit flush speaks all that is left; an idle one keeps an unfinished word. */
    method Flush(idle: bool) returns (segments: seq<TextSegment>)
      requires Valid()
      modifies this
      ensures Valid()
      ensures if idle then done == old(done) && open == old(open)
              else && done == Then(old(done), old(open)) && open == [] && chars == []
                   && Flat(fragments) == Filter(cue, done).items && inCodeFence == Filter(cue, done).open
      ensures old(fragments) <= fragments && segments == SegmentsOf(rules, fragments[|old(fragments)|..])
      ensures CutUp(rules, limits, fragments[|old(fragments)|..], chars, !idle, idle) && Ready(rules, limits, chars, !idle, idle)
      ensures old(chars) <= Together(fragments[|old(fragments)|..], chars)
    {
      ProcessRaw(!idle);
      segments := PopReady(!idle, idle);
      if !idle {
        AllSpoken();
      }
    }

    /** With nothing pending and an empty buffer, the fragments are the filtered text. */
    lemma AllSpoken()
      requires Valid() && open == [] && chars == []
      ensures Flat(fragments) == Filter(cue, done).items
    {
      ScannedEmpty(cue, base, pushed.open, |scanned|, recent, inCodeFence, content);
      AppendNothing(Flat(fragments));
      AppendNothing(Filter(cue, done).items);
    }

    /** In every state reached: fragments consumed one after the other have source ranges in
        order, within the text accepted. */
    lemma SourceRangesInOrder(a: nat, b: nat)
      requires Valid() && a < b < |fragments|
      ensures |Whole(done) + open| == sourceCursor
      ensures RangesInOrder(Whole(done) + open, SegmentOf(rules, fragments[a]), SegmentOf(rules, fragments[b]))
      ensures SegmentOf(rules, fragments[b]).sourceEnd <= sourceCursor
    {
      var source := Whole(done) + open;
      FilterIsOrdered(cue, done);
      OrderedMore(Whole(done), open, pushed.items, 0, base);
      RecentIsOrdered(cue, Whole(done), open, pushed.open, |scanned|, recent, inCodeFence, content);
      OrderedConcat(source, pushed.items, recent, 0, base, sourceCursor);
      OrderedPrefix(source, Flat(fragments), Zip(chars, positions), 0, sourceCursor);
      assert fragments[a] in fragments && fragments[b] in fragments;
      FragmentRanges(source, rules, fragments, a, b, sourceCursor);
    }

    method ConsumeRaw(length: nat) returns (text: string, start: nat)
      requires length <= |rawPending| && open == scanned + rawPending
      modifies this`rawPending, this`rawPendingStart, this`scanned
      ensures open == scanned + rawPending && |scanned| == old(|scanned|) + length
      ensures text == old(rawPending)[..length] && start == old(rawPendingStart)
      ensures rawPending == old(rawPending)[length..] && rawPendingStart == old(rawPendingStart) + length
    {
      text, start := rawPending[..length], rawPendingStart;
      assert scanned + rawPending == (scanned + rawPending[..length]) + rawPending[length..];
      scanned := scanned + text;
      rawPending := rawPending[length..];
      rawPendingStart := rawPendingStart + length;
    }

    method AppendPlain(text: string, sourceStart: nat)
      requires BufferValid()
      modifies this`chars, this`positions, this`recent, this`filtered
      ensures BufferValid() && old(chars) <= chars && recent == old(recent) + Plain(text, 0, |text|, sourceStart)
      ensures filtered == old(filtered) + Plain(text, 0, |text|, sourceStart)
    {
      Push(Plain(text, 0, |text|, sourceStart));
    }

    method AppendCodeCue(sourceStart: nat)
      requires BufferValid()
      modifies this`chars, this`positions, this`recent, this`filtered
      ensures BufferValid() && old(chars) <= chars && recent == old(recent) + Spoken(cue, 0, sourceStart)
      ensures filtered == old(filtered) + Spoken(cue, 0, sourceStart)
    {
      Push(Spoken(cue, 0, sourceStart));
    }

    /** Characters go to the end of the buffer together with their source ranges. */
    method Push(items: seq<Item>)
      requires BufferValid()
      modifies this`chars, this`positions, this`recent, this`filtered
      ensures recent == old(recent) + items && filtered == old(filtered) + items && BufferValid() && old(chars) <= chars
    {
      ZipConcat(chars, positions, Chars(items), Ranges(items));
      ZipUnzip(items);
      chars := chars + Chars(items);
      positions := positions + Ranges(items);
      recent := recent + items;
      filtered := filtered + items;
    }

    /** The open text is scanned to its end, and `inCodeFence` is how it ended. */
    ghost predicate Ended()
      reads this
    {
      && rawPending == [] && sourceCursor == base + |open| && rawPendingStart == sourceCursor
      && filtered == pushed.items + recent
      && ScanFrom(cue, open, 0, base, pushed.open, false) == Scan(recent, inCodeFence)
    }

    method ProcessRaw(force: bool)
      requires Valid()
      modifies this
      ensures Valid() && fragments == old(fragments) && old(chars) <= chars
      ensures if force then done == Then(old(done), old(open)) && open == [] && inCodeFence == pushed.open
              else done == old(done) && open == old(open)
    {
      ghost var ended := ScanRaw(force);
      if force {
        if !ended {
          NothingLeft();
        }
        EndText();
      }
    }

    /** Its loop; `ended` says that a forced flush has dropped or kept the rest of the text. */
    method ScanRaw(force: bool) returns (ghost ended: bool)
      requires Valid()
      modifies this
      ensures HistoryValid() && BufferValid() && if ended then force && Ended() else Valid() && (force ==> rawPending == [])
      ensures fragments == old(fragments) && done == old(done) && open == old(open) && old(chars) <= chars
    {
      ended := false;
      while rawPending != []
        invariant Valid() && fragments == old(fragments) && done == old(done) && open == old(open) && !ended
        invariant old(chars) <= chars
        decreases |rawPending|
      {
        if inCodeFence {
          var closeAt := FindFence(rawPending, 0);
          if closeAt >= 0 {
            CloseFence(closeAt);
            continue;
          }
          DropCode(force);
          ended := force;
          break;
        }
        var fenceAt := FindFence(rawPending, 0);
        if fenceAt >= 0 {
          OpenFence(fenceAt);
          continue;
        }
        KeepPlain(force);
        ended := force;
        break;
      }
    }

    /** The loop ended by itself: all of the open text is scanned. */
    ghost method NothingLeft()
      requires RawValid() && rawPending == []
      ensures Ended()
    {
      LastStep(cue, open, scanned, rawPending, base, pushed.open, recent, inCodeFence, content);
      AppendNothing(recent);
    }

    method CloseFence(closeAt: nat)
      requires RawValid() && BufferValid() && inCodeFence && FirstFence(rawPending, closeAt)
      modifies this`rawPending, this`rawPendingStart, this`scanned, this`inCodeFence, this`content
      ensures RawValid() && BufferValid() && |rawPending| < old(|rawPending|)
    {
      CloseStep(cue, open, scanned, rawPending, base, pushed.open, recent, content, closeAt);
      var _, _ := ConsumeRaw(closeAt + 3);
      inCodeFence := false;
      content := false;
    }

    method TakePlain(length: nat)
      requires RawValid() && BufferValid() && !inCodeFence && SafePlain(rawPending, length)
      modifies this`rawPending, this`rawPendingStart, this`scanned, this`chars, this`positions, this`recent, this`filtered
      ensures old(chars) <= chars && RawValid() && BufferValid() && rawPending == old(rawPending)[length..]
    {
      PlainStep(cue, open, scanned, rawPending, base, pushed.open, recent, length);
      var plain, plainStart := ConsumeRaw(length);
      AppendPlain(plain, plainStart);
    }

    method OpenFence(fenceAt: nat)
      requires RawValid() && BufferValid() && !inCodeFence && FirstFence(rawPending, fenceAt)
      modifies this`rawPending, this`rawPendingStart, this`scanned, this`inCodeFence, this`chars, this`positions,
          this`recent, this`filtered
      ensures old(chars) <= chars && RawValid() && BufferValid() && |rawPending| < old(|rawPending|)
    {
      if fenceAt > 0 {
        TakePlain(fenceAt);
      }
      SpeakCue();
    }

    method SpeakCue()
      requires RawValid() && BufferValid() && !inCodeFence && FenceAt(rawPending, 0)
      modifies this`rawPending, this`rawPendingStart, this`scanned, this`inCodeFence, this`chars, this`positions,
          this`recent, this`filtered
      ensures old(chars) <= chars && RawValid() && BufferValid() && |rawPending| < old(|rawPending|)
    {
      OpenStep(cue, open, scanned, rawPending, base, pushed.open, recent);
      var _, openingStart := ConsumeRaw(3);
      AppendCodeCue(openingStart);
      inCodeFence := true;
    }

    method DropCode(force: bool)
      requires RawValid() && BufferValid() && inCodeFence && rawPending != [] && Fenceless(rawPending)
      modifies this`rawPending, this`rawPendingStart, this`scanned, this`inCodeFence, this`content
      ensures BufferValid() && if force then Ended() else RawValid()
    {
      var keep := if force then 0 else if |rawPending| < 2 then |rawPending| else 2;
      var discard := |rawPending| - keep;
      if force {
        LastStep(cue, open, scanned, rawPending, base, pushed.open, recent, true, content);
      } else {
        SkipStep(cue, open, scanned, rawPending, base, pushed.open, recent, content, discard);
      }
      if discard > 0 {
        var _, _ := ConsumeRaw(discard);
        content := true;
      }
      if force {
        inCodeFence := false;
      }
    }

    method KeepPlain(force: bool)
      requires RawValid() && BufferValid() && !inCodeFence && Fenceless(rawPending)
      modifies this`rawPending, this`rawPendingStart, this`scanned, this`chars, this`positions, this`recent, this`filtered
      ensures old(chars) <= chars && BufferValid() && if force then Ended() else RawValid()
    {
      if force {
        TakeAllPlain();
      } else {
        var safeLength := |rawPending| - TrailingTicks(rawPending);
        if safeLength > 0 {
          TakePlain(safeLength);
        }
      }
    }

    method TakeAllPlain()
      requires RawValid() && BufferValid() && !inCodeFence && Fenceless(rawPending)
      modifies this`rawPending, this`rawPendingStart, this`scanned, this`chars, this`positions, this`recent, this`filtered
      ensures old(chars) <= chars && BufferValid() && Ended()
    {
      LastStep(cue, open, scanned, rawPending, base, pushed.open, recent, false, false);
      assert rawPending[..|rawPending|] == rawPending;
      var plain, plainStart := ConsumeRaw(|rawPending|);
      AppendPlain(plain, plainStart);
    }

    /** The forced flush ends the open text and starts an empty one. */
    ghost method EndText()
      requires Ended() && HistoryValid() && BufferValid()
      modifies this`done, this`open, this`scanned, this`recent, this`content, this`base, this`pushed
      ensures Valid() && done == Then(old(done), old(open)) && open == [] && inCodeFence == pushed.open
    {
      StartText();
    }

    ghost method StartText()
      requires Ended() && HistoryValid()
      modifies this`done, this`open, this`scanned, this`recent, this`content, this`base, this`pushed
      ensures RawValid() && HistoryValid() && done == Then(old(done), old(open)) && open == [] && inCodeFence == pushed.open
    {
      AppendNothing(pushed.items + recent);
      AppendNothing<char>([]);
      base, pushed := base + |open|, Scan(pushed.items + recent, inCodeFence);
      done, open, scanned, recent, content := Then(done, open), [], [], [], false;
    }

    // ── Cutting the buffer ────────────────────────────────────────────────────────────

    method PopReady(force: bool, idle: bool) returns (segments: seq<TextSegment>)
      requires Valid()
      modifies this`chars, this`positions, this`fragments
      ensures Valid() && old(fragments) <= fragments
      ensures segments == SegmentsOf(rules, fragments[|old(fragments)|..])
      ensures CutUp(rules, limits, fragments[|old(fragments)|..], chars, force, idle) && Ready(rules, limits, chars, force, idle)
      ensures Together(fragments[|old(fragments)|..], chars) == old(chars)
      ensures force ==> chars == []
    {
      segments := [];
      ghost var n := |fragments|;
      while chars != []
        invariant Valid() && old(fragments) <= fragments && n == |old(fragments)|
        invariant segments == SegmentsOf(rules, fragments[n..])
        invariant CutUp(rules, limits, fragments[n..], chars, force, idle) && Together(fragments[n..], chars) == old(chars)
        decreases |chars|
      {
        var boundary := NextBoundary(rules, limits, chars);
        if boundary.None? && force {
          boundary := Some(|chars|);
        } else if boundary.None? && idle {
          boundary := IdleBoundary(rules, chars);
        }
        if boundary.None? {
          break;
        }
        segments := TakeSegment(boundary.value, segments, n, force, idle);
      }
    }

    /** The buffer is cut, and its piece is spoken unless there is nothing in it. */
    method TakeSegment(boundary: nat, segments: seq<TextSegment>, ghost n: nat, ghost force: bool, ghost idle: bool)
      returns (more: seq<TextSegment>)
      requires Valid() && n <= |fragments| && segments == SegmentsOf(rules, fragments[n..])
      requires CutUp(rules, limits, fragments[n..], chars, force, idle) && CutHere(rules, limits, chars, boundary, force, idle)
      modifies this`chars, this`positions, this`fragments
      ensures Valid() && old(fragments) <= fragments && |chars| < |old(chars)|
      ensures more == SegmentsOf(rules, fragments[n..])
      ensures CutUp(rules, limits, fragments[n..], chars, force, idle)
      ensures Together(fragments[n..], chars) == old(Together(fragments[n..], chars))
    {
      var sourceHasContent := Strip(rules.spaces, chars[..boundary]) != [];
      ghost var before, left := fragments[n..], chars;
      var segment := ConsumeSegment(boundary);
      ghost var piece := fragments[|fragments| - 1];
      PieceTaken(before, fragments[n..], piece, left, chars, boundary);
      CutMore(rules, limits, before, piece, chars, force, idle);
      more := if segment.text != [] || sourceHasContent then segments + [segment] else segments;
    }

    method ConsumeSegment(boundary: nat) returns (segment: TextSegment)
      requires Valid() && 1 <= boundary <= |chars|
      modifies this`chars, this`positions, this`fragments
      ensures Valid() && chars == old(chars)[boundary..]
      ensures var fragment := Zip(old(chars)[..boundary], old(positions)[..boundary]);
              && fragments == old(fragments) + [fragment]
              && Chars(fragment) == old(chars)[..boundary]
              && segment == SegmentOf(rules, fragment)
    {
      var rawText, taken := chars[..boundary], positions[..boundary];
      var fragment := Zip(rawText, taken);
      TakeFragment(fragments, chars, positions, boundary);
      segment := TextSegment(rules.clean(rawText), FirstStart(fragment), LastEnd(fragment));
      chars, positions := chars[boundary..], positions[boundary..];
      fragments := fragments + [fragment];
    }
  }

  // ── A whole text, however it is cut ─────────────────────────────────────────────────

  datatype Input = Delta(text: string) | Pause

  function Source(inputs: seq<Input>): string {
    if inputs == [] then []
    else
      var last := inputs[|inputs| - 1];
      Source(inputs[..|inputs| - 1]) + if last.Delta? then last.text else []
  }

  /** Everything cut so far was cut at a boundary, and nothing that is ready is held back. */
  ghost predicate UpToDate(segmenter: Segmenter, segments: seq<TextSegment>)
    reads segmenter
  {
    && segmenter.Valid() && segments == SegmentsOf(segmenter.rules, segmenter.fragments)
    && AllCut(segmenter.rules, segmenter.limits, segmenter.fragments, segmenter.chars)
    && Ready(segmenter.rules, segmenter.limits, segmenter.chars, false, false)
  }

  lemma HeardMore(r: Rules, l: Limits, fragments: seq<seq<Item>>, was: string, after: seq<seq<Item>>, rest: string, force: bool, idle: bool)
    requires l.maxChars >= 1 && l.maxWords >= 1 && AllCut(r, l, fragments, was) && fragments <= after
    requires CutUp(r, l, after[|fragments|..], rest, force, idle) && was <= Together(after[|fragments|..], rest)
    ensures AllCut(r, l, after, rest)
    ensures SegmentsOf(r, after) == SegmentsOf(r, fragments) + SegmentsOf(r, after[|fragments|..])
  {
    var pieces := after[|fragments|..];
    assert fragments + pieces == after;
    AllCutMore(r, l, fragments, was, pieces, rest, force, idle);
    SegmentsConcat(r, fragments, pieces);
  }

  method Hear(segmenter: Segmenter, input: Input, before: seq<TextSegment>) returns (segments: seq<TextSegment>)
    requires UpToDate(segmenter, before)
    modifies segmenter
    ensures UpToDate(segmenter, segments)
    ensures segmenter.done == old(segmenter.done)
    ensures segmenter.open == old(segmenter.open) + if input.Delta? then input.text else []
  {
    ghost var fragments, was := segmenter.fragments, segmenter.chars;
    var more;
    match input {
      case Delta(text) => more := segmenter.Append(text);
      case Pause => more := segmenter.Flush(true);
    }
    HeardMore(segmenter.rules, segmenter.limits, fragments, was, segmenter.fragments, segmenter.chars, false, input.Pause?);
    segments := before + more;
  }

  /** The segments are the cleaned texts and ranges of fragments that, one after the other, are the
      one-pass filter of the source, each cut at a boundary of what had arrived of the rest. */
  ghost predicate SpeaksExactly(rules: Rules, limits: Limits, segments: seq<TextSegment>, source: string)
    requires limits.maxChars >= 1 && limits.maxWords >= 1
  {
    exists fragments :: segments == SegmentsOf(rules, fragments) && AllCut(rules, limits, fragments, [])
                        && Flat(fragments) == ScanFrom(CODE_BLOCK_CUE, source, 0, 0, false, false).items
  }

  /** Deltas of any size with idle flushes anywhere, then one commit: what is spoken is the one-pass
      filter of the whole text, cut into segments at boundaries. */
  method SpeakText(rules: Rules, mode: Mode, maxChars: int, maxWords: int,
      inputs: seq<Input>) returns (segments: seq<TextSegment>)
    ensures SpeaksExactly(rules, Clamped(mode, maxChars, maxWords), segments, Source(inputs))
  {
    var segmenter := new Segmenter(rules, mode, maxChars, maxWords);
    segments := [];
    for i := 0 to |inputs|
      invariant UpToDate(segmenter, segments) && fresh(segmenter)
      invariant segmenter.rules == rules && segmenter.limits == Clamped(mode, maxChars, maxWords)
      invariant segmenter.done == Nothing && segmenter.open == Source(inputs[..i])
    {
      assert inputs[..i + 1][..i] == inputs[..i];
      segments := Hear(segmenter, inputs[i], segments);
    }
    assert inputs[..|inputs|] == inputs;
    ghost var before, was := segmenter.fragments, segmenter.chars;
    var more := segmenter.Flush(false);
    HeardMore(rules, segmenter.limits, before, was, segmenter.fragments, segmenter.chars, true, false);
    segments := segments + more;
    FilterOne(CODE_BLOCK_CUE, Source(inputs));
  }

  lemma {:induction false} SegmentsConcat(r: Rules, a: seq<seq<Item>>, b: seq<seq<Item>>)
    ensures SegmentsOf(r, a + b) == SegmentsOf(r, a) + SegmentsOf(r, b)
  {
    if b == [] {
      assert a + b == a;
    } else {
      assert (a + b)[..|a + b| - 1] == a + b[..|b| - 1];
      SegmentsConcat(r, a, b[..|b| - 1]);
    }
  }
}
