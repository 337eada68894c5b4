/** `split_sentences`: where the sentences of a text are, looking no further than a window ahead. */
module SplitSentences {
  import opened Text
  import opened SentenceRules

  type Span = (nat, nat)

  const WINDOW_SLACK: nat := 64

  // ── Splitting with any rule that says how much from a position on is one sentence ──────────

  type Cutter = (string, nat) -> nat

  ghost predicate Advances(cut: Cutter) {
    forall t: string, p: nat {:trigger cut(t, p)} :: p < |t| ==> 1 <= cut(t, p) <= |t| - p
  }

  /** The spans of `t` from `p` on. */
  ghost function Spans(ws: set<char>, cut: Cutter, t: string, p: nat): seq<Span>
    requires Advances(cut) && p <= |t|
    decreases |t| - p
  {
    var first := SkipSpaces(ws, t, p);
    if first == |t| then []
    else
      var end := first + cut(t, first);
      [(first, TrimEnd(ws, t, first, end))] + Spans(ws, cut, t, end)
  }

  ghost predicate Inside(spans: seq<Span>, k: nat) {
    exists s <- spans :: s.0 <= k < s.1
  }

  /** Nonempty, in order, disjoint, and starting and ending on a non-space character. */
  ghost predicate WellPlaced(ws: set<char>, t: string, p: nat, spans: seq<Span>) {
    && (forall s <- spans :: p <= s.0 < s.1 <= |t| && t[s.0] !in ws && t[s.1 - 1] !in ws)
    && (forall i, j :: 0 <= i < j < |spans| ==> spans[i].1 <= spans[j].0)
  }

  lemma {:induction false} SpansWellPlaced(ws: set<char>, cut: Cutter, t: string, p: nat)
    requires Advances(cut) && p <= |t|
    ensures WellPlaced(ws, t, p, Spans(ws, cut, t, p))
    decreases |t| - p
  {
    var first := SkipSpaces(ws, t, p);
    if first < |t| {
      var end := first + cut(t, first);
      TrimStopsAfter(ws, t, first, first, end);
      SpansWellPlaced(ws, cut, t, end);
      WellPlacedCons(ws, t, p, (first, TrimEnd(ws, t, first, end)), end, Spans(ws, cut, t, end));
    }
  }

  lemma WellPlacedCons(ws: set<char>, t: string, p: nat, s: Span, end: nat, rest: seq<Span>)
    requires p <= s.0 < s.1 <= end <= |t| && t[s.0] !in ws && t[s.1 - 1] !in ws
    requires WellPlaced(ws, t, end, rest)
    ensures WellPlaced(ws, t, p, [s] + rest)
  {
  }

  /** Only whitespace is left out. */
  lemma {:induction false} SpansCoverText(ws: set<char>, cut: Cutter, t: string, p: nat, k: nat)
    requires Advances(cut) && p <= k < |t| && t[k] !in ws
    ensures Inside(Spans(ws, cut, t, p), k)
    decreases |t| - p
  {
    var first := SkipSpaces(ws, t, p);
    var end := first + cut(t, first);
    var spans := Spans(ws, cut, t, p);
    SkippedSpaces(ws, t, p);
    if k < end {
      TrimmedSpaces(ws, t, first, end);
      assert spans[0] in spans;
    } else {
      SpansCoverText(ws, cut, t, end, k);
      var s :| s in Spans(ws, cut, t, end) && s.0 <= k < s.1;
      assert s in spans;
    }
  }

  lemma {:induction false} SpanLengths(ws: set<char>, cut: Cutter, t: string, p: nat, bound: nat)
    requires Advances(cut) && p <= |t|
    requires forall first :: p <= first < |t| ==> cut(t, first) <= bound
    ensures forall s <- Spans(ws, cut, t, p) :: s.1 - s.0 <= bound
    decreases |t| - p
  {
    var first := SkipSpaces(ws, t, p);
    if first < |t| {
      SpanLengths(ws, cut, t, first + cut(t, first), bound);
    }
  }

  // ── The rule of the source ──────────────────────────────────────────────────────────

  /** How much of `rest`, which starts on a sentence, goes into that sentence. */
  function Cut(r: Rules, rest: string, maxChars: nat): (b: nat)
    requires rest != [] && maxChars >= 1
    ensures 1 <= b <= |rest|
  {
    var sentence := SentenceBoundary(r, rest, 0);
    var b := if sentence.Some? then sentence.value else |rest|;
    GraphemeBoundary(r, rest, if b > maxChars then CapCut(r, rest, maxChars) else b)
  }

  /** Where an overlong sentence is cut: at a clause, else at a word, else at the cap. */
  function CapCut(r: Rules, rest: string, maxChars: nat): (b: nat)
    requires |rest| > maxChars >= 1
    ensures 1 <= b <= maxChars
  {
    var clause := CapClauseBoundary(r, rest, maxChars);
    var space := RFind(rest, ' ', maxChars);
    if clause.Some? then clause.value else if space > 0 then space + 1 else maxChars
  }

  /** The first sentence of `rest`, or all of it, is longer than the cap. */
  ghost predicate Overlong(r: Rules, rest: string, maxChars: nat) {
    |rest| > maxChars && forall e: nat :: FirstSentenceEnd(r, rest, 0, e) ==> e > maxChars
  }

  /** Where an overlong sentence ends: at the last clause end in the second half of the cap; without one
      at the last space, else at the cap. */
  ghost predicate CapEndsAt(r: Rules, rest: string, maxChars: nat, b: nat)
    requires |rest| > maxChars >= 1
  {
    var head := rest[..maxChars];
    || LastCapEnd(r, head, maxChars / 2, b)
    || (NoClauseEnd(r, head, CapMark, maxChars / 2, maxChars)
        && if ' ' in head[1..] then 2 <= b <= maxChars && rest[b - 1] == ' ' && ' ' !in rest[b..maxChars] else b == maxChars)
  }

  /** Where a sentence ends, before the marks of its last character are taken along. */
  ghost predicate EndsAt(r: Rules, rest: string, maxChars: nat, b: nat)
    requires maxChars >= 1
  {
    if Overlong(r, rest, maxChars) then CapEndsAt(r, rest, maxChars, b)
    else FirstSentenceEnd(r, rest, 0, b) || (b == |rest| && NoSentenceEnd(r, rest, 0, |rest|))
  }

  lemma CapCutLaw(r: Rules, rest: string, maxChars: nat)
    requires ClausesLawful(r) && |rest| > maxChars >= 1
    ensures CapEndsAt(r, rest, maxChars, CapCut(r, rest, maxChars))
  {
    CapClauseIsLast(r, rest, maxChars);
    RFindIsLast(rest, ' ', maxChars);
    if ' ' in rest[..maxChars][1..] {
      var k :| 0 <= k < maxChars - 1 && rest[..maxChars][1..][k] == ' ';
      assert rest[k + 1] == ' ';
    }
  }

  lemma CutLaw(r: Rules, rest: string, maxChars: nat)
    requires Lawful(r) && ClausesLawful(r) && rest != [] && maxChars >= 1
    ensures exists b: nat :: EndsAt(r, rest, maxChars, b) && b <= |rest| && Cut(r, rest, maxChars) == GraphemeBoundary(r, rest, b)
  {
    SentenceBoundaryIsFirst(r, rest, 0);
    var sentence := SentenceBoundary(r, rest, 0);
    var b := if sentence.Some? then sentence.value else |rest|;
    if b > maxChars {
      OverlongLaw(r, rest, maxChars, sentence);
      CapCutLaw(r, rest, maxChars);
      assert EndsAt(r, rest, maxChars, CapCut(r, rest, maxChars));
    } else {
      assert EndsAt(r, rest, maxChars, b);
    }
  }

  /** Two first sentence ends are the same. */
  lemma OverlongLaw(r: Rules, rest: string, maxChars: nat, sentence: Option<nat>)
    requires FirstSentence(r, rest, 0, sentence)
    requires |rest| > maxChars && (sentence.Some? ==> sentence.value > maxChars)
    ensures Overlong(r, rest, maxChars)
  {
    forall e: nat | FirstSentenceEnd(r, rest, 0, e)
      ensures e > maxChars
    {
      var q: nat :| q < e && SentenceEndAt(r, rest, q) && e == CloserEnd(r, rest, q + 1) && NoSentenceEnd(r, rest, 0, q);
      if sentence.Some? {
        var p: nat :| p < sentence.value && SentenceEndAt(r, rest, p) && sentence.value == CloserEnd(r, rest, p + 1) && NoSentenceEnd(r, rest, 0, p);
        assert p == q;
      }
    }
  }

  function Window(t: string, p: nat, size: nat): string
    requires p <= |t|
  {
    if |t| <= p + size then t[p..] else t[p..p + size]
  }

  /** The rule applied to the whole rest of the text. */
  ghost function Unwindowed(r: Rules, maxChars: nat): (cut: Cutter)
    requires maxChars >= 1
    ensures Advances(cut)
  {
    (t: string, p: nat) => if p >= |t| then 0 else Cut(r, t[p..], maxChars)
  }

  /** The rule applied to a window, as the source does it. */
  ghost function Windowed(r: Rules, maxChars: nat): (cut: Cutter)
    requires maxChars >= 1
    ensures Advances(cut)
  {
    (t: string, p: nat) => if p >= |t| then 0 else Cut(r, Window(t, p, maxChars + WINDOW_SLACK), maxChars)
  }

  // ── The source's loops ──────────────────────────────────────────────────────────────

  method Split(r: Rules, text: string, maxChars: nat) returns (spans: seq<Span>)
    requires maxChars >= 1
    ensures spans == Spans(r.spaces, Windowed(r, maxChars), text, 0)
  {
    spans := [];
    var position := 0;
    while position < |text|
      invariant Progress(r, text, maxChars, spans, position)
    {
      ghost var from := position;
      while position < |text| && text[position] in r.spaces
        invariant from <= position <= |text|
        invariant SkipSpaces(r.spaces, text, position) == SkipSpaces(r.spaces, text, from)
      {
        position := position + 1;
      }
      if position >= |text| {
        break;
      }
      var boundary := CutWindow(r, text, position, maxChars);
      var end := position + boundary;
      var trimmed := TrimBack(r.spaces, text, position, end);
      Advance(r, text, maxChars, spans, from, position, end);
      spans := spans + [(position, trimmed)];
      position := end;
    }
  }

  ghost predicate Progress(r: Rules, text: string, maxChars: nat, spans: seq<Span>, position: nat)
    requires maxChars >= 1
  {
    && position <= |text|
    && Spans(r.spaces, Windowed(r, maxChars), text, 0) == spans + Spans(r.spaces, Windowed(r, maxChars), text, position)
  }

  lemma Advance(r: Rules, text: string, maxChars: nat, spans: seq<Span>, from: nat, first: nat, end: nat)
    requires maxChars >= 1 && Progress(r, text, maxChars, spans, from)
    requires first == SkipSpaces(r.spaces, text, from) && first < |text|
    requires end == first + Windowed(r, maxChars)(text, first)
    ensures Progress(r, text, maxChars, spans + [(first, TrimEnd(r.spaces, text, first, end))], end)
  {
    var cut := Windowed(r, maxChars);
    Append(Spans(r.spaces, cut, text, 0), spans, (first, TrimEnd(r.spaces, text, first, end)), Spans(r.spaces, cut, text, end));
  }

  /** The source's inner loop over trailing whitespace. */
  method TrimBack(ws: set<char>, text: string, position: nat, end: nat) returns (trimmed: nat)
    requires position <= end <= |text|
    ensures trimmed == TrimEnd(ws, text, position, end)
  {
    trimmed := end;
    while trimmed > position && text[trimmed - 1] in ws
      invariant position <= trimmed <= end
      invariant TrimEnd(ws, text, position, trimmed) == TrimEnd(ws, text, position, end)
    {
      trimmed := trimmed - 1;
    }
  }

  /** The body of the source's loop between the two whitespace loops. */
  method CutWindow(r: Rules, text: string, position: nat, maxChars: nat) returns (boundary: nat)
    requires maxChars >= 1 && position < |text|
    ensures boundary == Windowed(r, maxChars)(text, position)
  {
    var rest := Window(text, position, maxChars + WINDOW_SLACK);
    var sentence := SentenceBoundary(r, rest, 0);
    boundary := if sentence.Some? then sentence.value else |rest|;
    if boundary > maxChars {
      boundary := CapCut(r, rest, maxChars);
    }
    boundary := GraphemeBoundary(r, rest, boundary);
  }

  lemma Append<T>(all: seq<T>, done: seq<T>, x: T, tail: seq<T>)
    requires all == done + ([x] + tail)
    ensures all == (done + [x]) + tail
  {
  }

  /** Without grapheme extension no span is longer than the cap. */
  lemma SentencesWithinCap(r: Rules, t: string, maxChars: nat)
    requires maxChars >= 1 && Unmarked(r, t)
    ensures forall s <- Spans(r.spaces, Windowed(r, maxChars), t, 0) :: s.1 - s.0 <= maxChars
  {
    var cut := Windowed(r, maxChars);
    forall first | 0 <= first < |t|
      ensures cut(t, first) <= maxChars
    {
      var rest := Window(t, first, maxChars + WINDOW_SLACK);
      assert forall k :: 0 <= k < |rest| ==> rest[k] == t[first + k];
    }
    SpanLengths(r.spaces, cut, t, 0, maxChars);
  }

  // ── The window changes nothing exactly when every cut stays inside it ───────────────

  /** One closing token inside a window: the same, or none when it reaches past the end. */
  lemma CloserLengthWindow(r: Rules, t: string, w: nat, i: nat)
    requires Lawful(r) && Distinct(r.entities) && i < w <= |t|
    ensures CloserLength(r, t[..w], i) == if i + CloserLength(r, t, i) <= w then CloserLength(r, t, i) else 0
    ensures i + CloserLength(r, t, i) > w ==> t[i] !in r.spaces
  {
    EntityLengthWindow(r.entities, t, w, i);
    assert t[..w][i] == t[i];
    if t[i] !in r.closers && i + CloserLength(r, t, i) > w {
      EntityFound(r.entities, t, i);
      var word :| word in r.entities && CloserLength(r, t, i) == |word| && FoldedAt(t, i, word);
      EntityHoldsNoMarks(t, i, word);
    }
  }

  /** A run of closers inside a window: the same run, unless it reaches past the window's end;
      then the window's run stops at the end or at a character that is no whitespace. */
  ghost predicate RunAgrees(r: Rules, t: string, w: nat, i: nat)
    requires i <= w <= |t|
  {
    var inWindow, whole := CloserEnd(r, t[..w], i), CloserEnd(r, t, i);
    if whole <= w then inWindow == whole else inWindow == w || t[inWindow] !in r.spaces
  }

  lemma RunStep(r: Rules, t: string, w: nat, i: nat)
    requires i < w <= |t|
    requires CloserLength(r, t[..w], i) == if i + CloserLength(r, t, i) <= w then CloserLength(r, t, i) else 0
    requires i + CloserLength(r, t, i) > w ==> t[i] !in r.spaces
    requires i + CloserLength(r, t, i) <= w ==> CloserLength(r, t, i) == 0 || RunAgrees(r, t, w, i + CloserLength(r, t, i))
    ensures RunAgrees(r, t, w, i)
  {
  }

  lemma {:induction false} CloserWindow(r: Rules, t: string, w: nat, i: nat)
    requires Lawful(r) && Distinct(r.entities) && i <= w <= |t|
    ensures RunAgrees(r, t, w, i)
    decreases |t| - i
  {
    if i < w {
      CloserLengthWindow(r, t, w, i);
      var len := CloserLength(r, t, i);
      if len > 0 && i + len <= w {
        CloserWindow(r, t, w, i + len);
      }
      RunStep(r, t, w, i);
    }
  }

  /** No two entity names start at the same place, so a window sees the same one or none. */
  lemma {:induction false} EntityLengthWindow(words: seq<string>, t: string, w: nat, i: nat)
    requires i < w <= |t| && Distinct(words)
    ensures var inWindow, whole := EntityLength(words, t[..w], i), EntityLength(words, t, i);
            inWindow == if i + whole <= w then whole else 0
  {
    if words != [] {
      var word := words[0];
      EntityLengthWindow(words[1..], t, w, i);
      EntityFound(words[1..], t, i);
      assert FoldedAt(t[..w], i, word) <==> FoldedAt(t, i, word) && i + |word| <= w;
      if FoldedAt(t, i, word) {
        forall b | 0 <= b < |words[1..]|
          ensures !FoldedAt(t, i, words[1..][b])
        {
          assert Differ(word, words[b + 1]);
        }
      }
    }
  }

  lemma {:induction false} NoBoundaryWithoutMarks(r: Rules, t: string, p: nat)
    requires forall k :: p <= k < |t| ==> !SentenceMark(t[k])
    ensures SentenceBoundary(r, t, p).None?
    decreases |t| - p
  {
    if p < |t| { NoBoundaryWithoutMarks(r, t, p + 1); }
  }

  lemma {:induction false} SentenceWindow(r: Rules, t: string, w: nat, p: nat)
    requires Lawful(r) && Distinct(r.entities) && p <= w <= |t|
    ensures var inWindow, whole := SentenceBoundary(r, t[..w], p), SentenceBoundary(r, t, p);
            if inWindow.Some? then whole == inWindow else whole.None? || whole.value >= w
    decreases |t| - p
  {
    if p < w {
      CloserWindow(r, t, w, p + 1);
      assert t[..w][..p] == t[..p];
      var e := CloserEnd(r, t, p + 1);
      if MarkMatch(r, t[..w], SentenceMark, p) {
        SentenceWindow(r, t, w, e);
      } else if MarkMatch(r, t, SentenceMark, p) {
        ClosersHoldNoMarks(r, t, p + 1);
        NoBoundaryWithoutMarks(r, t[..w], p + 1);
      } else {
        SentenceWindow(r, t, w, p + 1);
      }
    }
  }

  lemma {:induction false} GraphemeWindow(r: Rules, t: string, w: nat, b: nat)
    requires Lawful(r) && b <= w <= |t|
    ensures var inWindow, whole := GraphemeBoundary(r, t[..w], b), GraphemeBoundary(r, t, b);
            if whole <= w then inWindow == whole else inWindow < whole && t[inWindow] !in r.spaces
    decreases |t| - b
  {
    if b < w {
      if r.extend(t[b]) {
        GraphemeWindow(r, t, w, b + 1);
      } else if t[b] == ZWJ && b + 1 < w {
        GraphemeWindow(r, t, w, b + 2);
      }
    }
  }

  /** One cut at `p` through a window of `w` characters, against the same cut of the whole rest. */
  ghost predicate CutAgrees(ws: set<char>, t: string, p: nat, w: nat, inWindow: nat, whole: nat)
    requires p + whole <= |t|
  {
    if whole <= w then inWindow == whole else inWindow < whole && t[p + inWindow] !in ws
  }

  lemma CutInWindow(r: Rules, t: string, w: nat, maxChars: nat)
    requires Lawful(r) && Distinct(r.entities) && 1 <= maxChars < w <= |t|
    ensures CutAgrees(r.spaces, t, 0, w, Cut(r, t[..w], maxChars), Cut(r, t, maxChars))
  {
    SentenceWindow(r, t, w, 0);
    assert t[..w][..maxChars] == t[..maxChars];
    RFindInPrefix(t, w, ' ', maxChars);
    assert CapCut(r, t[..w], maxChars) == CapCut(r, t, maxChars);
    var sentence := SentenceBoundary(r, t, 0);
    var b := if sentence.Some? then sentence.value else |t|;
    GraphemeWindow(r, t, w, if b > maxChars then CapCut(r, t, maxChars) else b);
  }

  /** No cut of the split by `cut` is longer than `size`. */
  ghost predicate Fits(ws: set<char>, cut: Cutter, t: string, p: nat, size: nat)
    requires Advances(cut) && p <= |t|
    decreases |t| - p
  {
    var first := SkipSpaces(ws, t, p);
    first < |t| ==> cut(t, first) <= size && Fits(ws, cut, t, first + cut(t, first), size)
  }

  lemma {:induction false} SameSpans(ws: set<char>, windowed: Cutter, whole: Cutter, t: string, p: nat, size: nat)
    requires Advances(windowed) && Advances(whole) && p <= |t|
    requires forall q: nat {:trigger whole(t, q)} :: q < |t| ==> CutAgrees(ws, t, q, size, windowed(t, q), whole(t, q))
    ensures Spans(ws, windowed, t, p) == Spans(ws, whole, t, p) <==> Fits(ws, whole, t, p, size)
    decreases |t| - p
  {
    var first := SkipSpaces(ws, t, p);
    if first < |t| {
      if whole(t, first) <= size {
        var end := first + whole(t, first);
        SameSpans(ws, windowed, whole, t, end, size);
        SameHead((first, TrimEnd(ws, t, first, end)), Spans(ws, windowed, t, end), Spans(ws, whole, t, end));
      } else {
        DifferentSpans(ws, windowed, whole, t, p, first);
      }
    }
  }

  lemma DifferentSpans(ws: set<char>, windowed: Cutter, whole: Cutter, t: string, p: nat, first: nat)
    requires Advances(windowed) && Advances(whole) && p <= |t|
    requires first == SkipSpaces(ws, t, p) && first < |t|
    requires windowed(t, first) < whole(t, first) && t[first + windowed(t, first)] !in ws
    ensures Spans(ws, windowed, t, p) != Spans(ws, whole, t, p)
  {
    var x, y := first + windowed(t, first), first + whole(t, first);
    TrimStopsAfter(ws, t, first, x, y);
    DifferentHead((first, TrimEnd(ws, t, first, x)), (first, TrimEnd(ws, t, first, y)),
                  Spans(ws, windowed, t, x), Spans(ws, whole, t, y));
  }

  lemma TrimStopsAfter(ws: set<char>, t: string, lo: nat, k: nat, hi: nat)
    requires lo <= k < hi <= |t| && t[k] !in ws
    ensures k < TrimEnd(ws, t, lo, hi)
  {
    TrimmedSpaces(ws, t, lo, hi);
  }

  lemma DifferentHead<T>(x: T, y: T, a: seq<T>, b: seq<T>)
    requires x != y
    ensures [x] + a != [y] + b
  {
    assert ([x] + a)[0] != ([y] + b)[0];
  }

  lemma SameHead<T>(x: T, a: seq<T>, b: seq<T>)
    ensures [x] + a == [x] + b <==> a == b
  {
    assert ([x] + a)[1..] == a && ([x] + b)[1..] == b;
  }

  /** The windowed split equals the unwindowed one exactly when every cut of the unwindowed
      split, grapheme extension included, fits the window. */
  lemma WindowedSplitIsExact(r: Rules, t: string, maxChars: nat)
    requires Lawful(r) && Distinct(r.entities) && maxChars >= 1
    ensures Spans(r.spaces, Windowed(r, maxChars), t, 0) == Spans(r.spaces, Unwindowed(r, maxChars), t, 0)
        <==> Fits(r.spaces, Unwindowed(r, maxChars), t, 0, maxChars + WINDOW_SLACK)
  {
    var windowed, whole, size := Windowed(r, maxChars), Unwindowed(r, maxChars), maxChars + WINDOW_SLACK;
    forall p: nat | p < |t|
      ensures CutAgrees(r.spaces, t, p, size, windowed(t, p), whole(t, p))
    {
      var rest := t[p..];
      if |rest| > size {
        assert Window(t, p, size) == rest[..size];
        CutInWindow(r, rest, size, maxChars);
      }
    }
    SameSpans(r.spaces, windowed, whole, t, 0, size);
  }

  // ── When the window is large enough ─────────────────────────────────────────────────

  /** No character of the text is followed by more marks than the slack of the window. */
  ghost predicate ShortClusters(r: Rules, t: string) {
    forall b: nat :: b <= |t| ==> GraphemeBoundary(r, t, b) <= b + WINDOW_SLACK
  }

  lemma {:induction false} GraphemeInSuffix(r: Rules, t: string, p: nat, b: nat)
    requires p + b <= |t|
    ensures GraphemeBoundary(r, t, p + b) == p + GraphemeBoundary(r, t[p..], b)
    decreases |t| - p - b
  {
    if p + b < |t| {
      if r.extend(t[p + b]) {
        GraphemeInSuffix(r, t, p, b + 1);
      } else if t[p + b] == ZWJ && p + b + 1 < |t| {
        GraphemeInSuffix(r, t, p, b + 2);
      }
    }
  }

  lemma {:induction false} ShortClustersFit(r: Rules, t: string, p: nat, maxChars: nat)
    requires maxChars >= 1 && p <= |t| && ShortClusters(r, t)
    ensures Fits(r.spaces, Unwindowed(r, maxChars), t, p, maxChars + WINDOW_SLACK)
    decreases |t| - p
  {
    var first := SkipSpaces(r.spaces, t, p);
    if first < |t| {
      var rest := t[first..];
      var sentence := SentenceBoundary(r, rest, 0);
      var b := if sentence.Some? then sentence.value else |rest|;
      GraphemeInSuffix(r, t, first, if b > maxChars then CapCut(r, rest, maxChars) else b);
      ShortClustersFit(r, t, first + Unwindowed(r, maxChars)(t, first), maxChars);
    }
  }

  /** So the window changes nothing for a text without longer clusters, at any cap. */
  lemma ShortClustersSplitAlike(r: Rules, t: string, maxChars: nat)
    requires Lawful(r) && Distinct(r.entities) && maxChars >= 1 && ShortClusters(r, t)
    ensures Spans(r.spaces, Windowed(r, maxChars), t, 0) == Spans(r.spaces, Unwindowed(r, maxChars), t, 0)
  {
    ShortClustersFit(r, t, 0, maxChars);
    WindowedSplitIsExact(r, t, maxChars);
  }

  /** A letter with one mark more than the slack. */
  function Stacked(e: char): string { ['x'] + seq(WINDOW_SLACK + 1, i => e) }

  lemma {:induction false} AllExtend(r: Rules, t: string, b: nat)
    requires b <= |t| && forall k :: b <= k < |t| ==> r.extend(t[k])
    ensures GraphemeBoundary(r, t, b) == |t|
    decreases |t| - b
  {
    if b < |t| { AllExtend(r, t, b + 1); }
  }

  /** There, at a cap of one character, the window does change the split. */
  lemma StackedSplitsDiffer(r: Rules, e: char)
    requires Lawful(r) && Distinct(r.entities) && 'x' !in r.spaces && ' ' in r.spaces && r.extend(e)
    ensures Spans(r.spaces, Windowed(r, 1), Stacked(e), 0) != Spans(r.spaces, Unwindowed(r, 1), Stacked(e), 0)
  {
    var t := Stacked(e);
    assert t[0..] == t && forall k :: 0 <= k < |t| ==> t[k] !in r.spaces;
    assert SentenceBoundary(r, t, 0).None?;
    assert RFind(t, ' ', 1) < 0 && CapCut(r, t, 1) == 1;
    AllExtend(r, t, 1);
    assert Unwindowed(r, 1)(t, 0) == |t| > 1 + WINDOW_SLACK;
    WindowedSplitIsExact(r, t, 1);
  }

  // ── The tables of the source meet the requirements ──────────────────────────────────

  lemma SourceEntitiesArePlain()
    ensures forall w <- ENTITY_CLOSERS :: PlainEntity(w) && forall k :: 0 <= k < |w| - 1 ==> !CapMark(w[k])
  {
    forall j | 0 <= j < |ENTITY_CLOSERS|
      ensures PlainEntity(ENTITY_CLOSERS[j]) && forall k :: 0 <= k < |ENTITY_CLOSERS[j]| - 1 ==> !CapMark(ENTITY_CLOSERS[j][k])
    {
      var w := ENTITY_CLOSERS[j];
      if j == 0 { assert w == "&quot;"; }
      else if j == 1 { assert w == "&rdquo;"; }
      else if j == 2 { assert w == "&rsquo;"; }
      else if j == 3 { assert w == "&#34;"; }
      else if j == 4 { assert w == "&#8217;"; }
      else if j == 5 { assert w == "&#8221;"; }
      else if j == 6 { assert w == "&#x22;"; }
      else if j == 7 { assert w == "&#x2019;"; }
      else { assert w == "&#x201d;"; }
    }
  }

  lemma SourceEntitiesAreDistinct()
    ensures Distinct(ENTITY_CLOSERS)
  {
    forall a, b | 0 <= a < b < |ENTITY_CLOSERS|
      ensures Differ(ENTITY_CLOSERS[a], ENTITY_CLOSERS[b])
    {
      var k := FirstDifference(a, b);
    }
  }

  lemma SourceClosersArePlain()
    ensures forall c <- CLOSERS :: !SentenceMark(c) && !CapMark(c)
    ensures '&' !in WHITESPACE && ZWJ !in WHITESPACE
  {
  }

  /** The source's tables, with any extenders that are no whitespace. */
  lemma SourceRulesAreLawful(r: Rules)
    requires r.spaces == WHITESPACE && r.closers == CLOSERS && r.entities == ENTITY_CLOSERS
    requires forall c :: r.extend(c) ==> c !in r.spaces
    ensures Lawful(r) && ClausesLawful(r) && Distinct(r.entities)
  {
    SourceEntitiesArePlain();
    SourceEntitiesAreDistinct();
    SourceClosersArePlain();
    LawfulTables(r);
  }

  lemma LawfulTables(r: Rules)
    requires forall c <- r.closers :: !SentenceMark(c) && !CapMark(c)
    requires forall w <- r.entities :: PlainEntity(w) && forall k :: 0 <= k < |w| - 1 ==> !CapMark(w[k])
    requires '&' !in r.spaces && ZWJ !in r.spaces
    requires forall c :: r.extend(c) ==> c !in r.spaces
    ensures Lawful(r) && ClausesLawful(r)
  {
  }

  lemma FirstDifference(a: nat, b: nat) returns (k: nat)
    requires a < b < |ENTITY_CLOSERS|
    ensures k < |ENTITY_CLOSERS[a]| && k < |ENTITY_CLOSERS[b]| && ENTITY_CLOSERS[a][k] != ENTITY_CLOSERS[b][k]
  {
    var x, y := ENTITY_CLOSERS[a], ENTITY_CLOSERS[b];
    k := if x[1] != y[1] then 1 else if x[2] != y[2] then 2 else if x[3] != y[3] then 3 else if x[4] != y[4] then 4
         else if x[5] != y[5] then 5 else 6;
  }
}
