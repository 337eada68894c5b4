/** The whole-text meaning of the live segmenter's input filter: fenced code is dropped and each
    opening fence leaves a spoken cue. One pass, from left to right, over the complete text. */
module FenceFilter {
  import opened Text

  const CODE_BLOCK_CUE: string := "Code block skipped. "  // `cue` below

  /** A character that may be spoken, with the source range it stands for. */
  datatype Item = Item(ch: char, start: nat, end: nat)

  datatype Scan = Scan(items: seq<Item>, open: bool)

  predicate FenceAt(t: string, i: nat) {
    i + 3 <= |t| && t[i] == '`' && t[i + 1] == '`' && t[i + 2] == '`'
  }

  /** The characters `lo..hi` of `t` as items; `t` starts at `base` in the source. */
  function Plain(t: string, lo: nat, hi: nat, base: nat): seq<Item>
    requires lo <= hi <= |t|
    decreases hi - lo
  {
    if lo == hi then [] else [Item(t[lo], base + lo, base + lo + 1)] + Plain(t, lo + 1, hi, base)
  }

  /** Every character of the cue stands for the three backticks that open the fence. */
  function Spoken(text: string, k: nat, start: nat): seq<Item>
    decreases |text| - k
  {
    if k >= |text| then [] else [Item(text[k], start, start + 3)] + Spoken(text, k + 1, start)
  }

  function Prepend(items: seq<Item>, s: Scan): Scan { Scan(items + s.items, s.open) }

  /** Filter `t` from `i` on; `t` starts at `base` in the source. `inFence` says whether code is
      being skipped and `content` whether anything was skipped since the fence opened. An open
      fence is closed by the end of the text, except a fence with nothing after it. */
  function ScanFrom(cue: string, t: string, i: nat, base: nat, inFence: bool, content: bool): Scan
    decreases |t| - i
  {
    if i >= |t| then Scan([], inFence && !content)
    else if FenceAt(t, i) then
      if inFence then ScanFrom(cue, t, i + 3, base, false, false)
      else Prepend(Spoken(cue, 0, base + i), ScanFrom(cue, t, i + 3, base, true, false))
    else if inFence then ScanFrom(cue, t, i + 1, base, true, true)
    else Prepend([Item(t[i], base + i, base + i + 1)], ScanFrom(cue, t, i + 1, base, false, false))
  }

  // ── Texts cut by forced flushes ─────────────────────────────────────────────────────

  /** The texts accepted so far, each ended by a forced flush. */
  datatype Texts = Nothing | Then(before: Texts, text: string)

  function Length(texts: Texts): nat {
    match texts
    case Nothing => 0
    case Then(before, text) => Length(before) + |text|
  }

  function Filter(cue: string, texts: Texts): Scan {
    match texts
    case Nothing => Scan([], false)
    case Then(before, text) =>
      var first := Filter(cue, before);
      Prepend(first.items, ScanFrom(cue, text, 0, Length(before), first.open, false))
  }

  /** One text and one forced flush: the one-pass filter of the whole text. */
  lemma FilterOne(cue: string, text: string)
    ensures Filter(cue, Then(Nothing, text)) == ScanFrom(cue, text, 0, 0, false, false)
  {
    var scan := ScanFrom(cue, text, 0, 0, false, false);
    assert Filter(cue, Nothing) == Scan([], false);
    assert [] + scan.items == scan.items;
  }

  // ── Scanning a stretch without fences ───────────────────────────────────────────────

  ghost predicate NoFence(t: string, lo: nat, hi: nat) {
    forall i {:trigger FenceAt(t, i)} :: lo <= i < hi ==> !FenceAt(t, i)
  }

  lemma {:induction false} ScanPlain(cue: string, t: string, lo: nat, hi: nat, base: nat)
    requires lo <= hi <= |t| && NoFence(t, lo, hi)
    ensures ScanFrom(cue, t, lo, base, false, false) == Prepend(Plain(t, lo, hi, base), ScanFrom(cue, t, hi, base, false, false))
    decreases hi - lo
  {
    if lo < hi {
      ScanPlain(cue, t, lo + 1, hi, base);
      PrependTwice([Item(t[lo], base + lo, base + lo + 1)], Plain(t, lo + 1, hi, base), ScanFrom(cue, t, hi, base, false, false));
    } else {
      assert Prepend([], ScanFrom(cue, t, hi, base, false, false)) == ScanFrom(cue, t, hi, base, false, false);
    }
  }

  lemma PrependTwice(a: seq<Item>, b: seq<Item>, s: Scan)
    ensures Prepend(a, Prepend(b, s)) == Prepend(a + b, s)
  {
    assert a + (b + s.items) == (a + b) + s.items;
  }

  lemma {:induction false} ScanSkipped(cue: string, t: string, lo: nat, hi: nat, base: nat, content: bool)
    requires lo <= hi <= |t| && NoFence(t, lo, hi)
    ensures ScanFrom(cue, t, lo, base, true, content) == ScanFrom(cue, t, hi, base, true, content || lo < hi)
    decreases hi - lo
  {
    if lo < hi { ScanSkipped(cue, t, lo + 1, hi, base, true); }
  }

  // ── The order of source ranges ──────────────────────────────────────────────────────

  /** The whole text accepted. */
  function Whole(texts: Texts): (s: string)
    ensures |s| == Length(texts)
  {
    match texts
    case Nothing => []
    case Then(before, text) => Whole(before) + text
  }

  /** Ranges of two items in the order they were pushed: one after the other in the source, or both
      are the same opening fence of the source. */
  ghost predicate InOrder(source: string, a: Item, b: Item) {
    a.end <= b.start || (a.start == b.start && a.end == b.end == a.start + 3 && FenceAt(source, a.start))
  }

  ghost predicate Ordered(source: string, items: seq<Item>, lo: nat, hi: nat) {
    && (forall i :: 0 <= i < |items| ==> lo <= items[i].start < items[i].end <= hi)
    && (forall i, j :: 0 <= i < j < |items| ==> InOrder(source, items[i], items[j]))
  }

  lemma OrderedConcat(source: string, a: seq<Item>, b: seq<Item>, lo: nat, mid: nat, hi: nat)
    requires lo <= mid <= hi && Ordered(source, a, lo, mid) && Ordered(source, b, mid, hi)
    ensures Ordered(source, a + b, lo, hi)
  {
  }

  /** More text after the source moves no fence. */
  lemma OrderedMore(source: string, more: string, items: seq<Item>, lo: nat, hi: nat)
    requires Ordered(source, items, lo, hi)
    ensures Ordered(source + more, items, lo, hi)
  {
    forall i, j | 0 <= i < j < |items|
      ensures InOrder(source + more, items[i], items[j])
    {
      assert InOrder(source, items[i], items[j]);
    }
  }

  /** The cue is spoken character by character, each with the range of the fence. */
  lemma {:induction false} SpokenIsText(text: string, k: nat, start: nat)
    requires k <= |text|
    ensures |Spoken(text, k, start)| == |text| - k
    ensures forall j :: 0 <= j < |text| - k ==> Spoken(text, k, start)[j] == Item(text[k + j], start, start + 3)
    decreases |text| - k
  {
    if k < |text| { SpokenIsText(text, k + 1, start); }
  }

  lemma {:induction false} SpokenStays(text: string, k: nat, start: nat)
    ensures forall item <- Spoken(text, k, start) :: item.start == start && item.end == start + 3
    decreases |text| - k
  {
    if k < |text| { SpokenStays(text, k + 1, start); }
  }

  lemma SpokenAtFence(source: string, text: string, start: nat)
    requires FenceAt(source, start)
    ensures Ordered(source, Spoken(text, 0, start), start, start + 3)
  {
    SpokenStays(text, 0, start);
  }

  /** `t` follows `pre` in the source. */
  lemma {:induction false} ScanIsOrdered(cue: string, pre: string, t: string, i: nat, inFence: bool, content: bool)
    ensures Ordered(pre + t, ScanFrom(cue, t, i, |pre|, inFence, content).items, |pre| + i, |pre| + Max(|t|, i))
    decreases |t| - i
  {
    if i < |t| {
      var source, base := pre + t, |pre|;
      if FenceAt(t, i) {
        ScanIsOrdered(cue, pre, t, i + 3, !inFence, false);
        if !inFence {
          assert FenceAt(source, base + i);
          SpokenAtFence(source, cue, base + i);
          OrderedConcat(source, Spoken(cue, 0, base + i), ScanFrom(cue, t, i + 3, base, true, false).items,
                        base + i, base + i + 3, base + |t|);
        }
      } else {
        ScanIsOrdered(cue, pre, t, i + 1, inFence, inFence);
        if !inFence {
          OrderedConcat(source, [Item(t[i], base + i, base + i + 1)], ScanFrom(cue, t, i + 1, base, false, false).items,
                        base + i, base + i + 1, base + |t|);
        }
      }
    }
  }

  lemma {:induction false} FilterIsOrdered(cue: string, texts: Texts)
    ensures Ordered(Whole(texts), Filter(cue, texts).items, 0, Length(texts))
  {
    match texts
    case Nothing =>
    case Then(before, text) =>
      var first := Filter(cue, before);
      FilterIsOrdered(cue, before);
      OrderedMore(Whole(before), text, first.items, 0, Length(before));
      ScanIsOrdered(cue, Whole(before), text, 0, first.open, false);
      OrderedConcat(Whole(texts), first.items, ScanFrom(cue, text, 0, Length(before), first.open, false).items,
                    0, Length(before), Length(texts));
  }

  // ── A forced flush inside a fence ───────────────────────────────────────────────────

  /** The number of fences from `i` on, found from left to right. */
  function Fences(t: string, i: nat): nat
    decreases |t| - i
  {
    if i >= |t| then 0 else if FenceAt(t, i) then 1 + Fences(t, i + 3) else Fences(t, i + 1)
  }

  /** The end of the last of them, or `last` if there is none. */
  function LastFenceEnd(t: string, i: nat, last: nat): nat
    decreases |t| - i
  {
    if i >= |t| then last
    else if FenceAt(t, i) then LastFenceEnd(t, i + 3, i + 3)
    else LastFenceEnd(t, i + 1, last)
  }

  /** The text leaves the filter inside a fence, and nothing follows the fence that opened it. */
  predicate EndsAtOpeningFence(t: string, inFence: bool) {
    inFence != (Fences(t, 0) % 2 == 1) && LastFenceEnd(t, 0, 0) == |t|
  }

  lemma {:induction false} ScanOpen(cue: string, t: string, i: nat, base: nat, inFence: bool, content: bool, last: nat)
    requires last <= i <= |t| && (inFence ==> (content <==> last < i))
    ensures ScanFrom(cue, t, i, base, inFence, content).open <==>
            inFence != (Fences(t, i) % 2 == 1) && LastFenceEnd(t, i, last) == |t|
    decreases |t| - i
  {
    if i < |t| {
      if FenceAt(t, i) {
        ScanOpen(cue, t, i + 3, base, !inFence, false, i + 3);
      } else {
        ScanOpen(cue, t, i + 1, base, inFence, inFence, last);
      }
    }
  }

  /** A forced flush is to close the fence. It does so exactly unless the text since the flush before
      ends with the fence that opened it, or is empty inside a fence that was left open. */
  lemma {:induction false} FenceStaysOpenExactly(cue: string, before: Texts, text: string)
    ensures Filter(cue, Then(before, text)).open <==> EndsAtOpeningFence(text, Filter(cue, before).open)
  {
    ScanOpen(cue, text, 0, Length(before), Filter(cue, before).open, false, 0);
  }

  /** After that, a text without a fence is skipped as if it were code. */
  lemma {:induction false} OpenFenceSwallows(cue: string, before: Texts, text: string)
    requires Filter(cue, before).open && NoFence(text, 0, |text|)
    ensures Filter(cue, Then(before, text)).items == Filter(cue, before).items
  {
    ScanSkipped(cue, text, 0, |text|, Length(before), false);
  }

  /** Two texts, each flushed: "hi" is not spoken. */
  lemma {:induction false} FenceLeftOpen(cue: string)
    ensures Filter(cue, Then(Nothing, "```")).open
    ensures Filter(cue, Then(Then(Nothing, "```"), "hi")).items == Filter(cue, Then(Nothing, "```")).items
  {
    assert Filter(cue, Nothing) == Scan([], false);
    assert FenceAt("```", 0);
    assert Fences("```", 0) == 1 + Fences("```", 3);
    FenceStaysOpenExactly(cue, Nothing, "```");
    OpenFenceSwallows(cue, Then(Nothing, "```"), "hi");
  }
}
