/** Where the live segmenter may cut its buffer: every rule of `_next_boundary`, `_hard_boundary`
    and `_idle_boundary`. Each boundary found lies in 1..|t|, so cutting always makes progress. */
module SegmentBoundaries {
  import opened Text
  import opened SentenceRules

  datatype Mode = Natural | Responsive | InstantWord

  datatype Limits = Limits(mode: Mode, maxChars: nat, maxWords: nat)

  /** The constructor clamps both limits. */
  function Clamped(mode: Mode, maxChars: int, maxWords: int): (l: Limits)
    ensures l.maxChars >= 20 && l.maxWords >= 1
  {
    Limits(mode, if maxChars < 20 then 20 else maxChars, if maxWords < 1 then 1 else maxWords)
  }

  type Boundary = Option<nat>

  ghost predicate Within(b: Boundary, t: string) {
    b.Some? ==> 1 <= b.value <= |t|
  }

  function Earlier(a: Boundary, b: Boundary): Boundary {
    if a.None? then b else if b.None? || a.value <= b.value then a else b
  }

  // ── Words ───────────────────────────────────────────────────────────────────────────

  /** End of the next word from `i` on, with the whitespace that completes it. */
  function CompletedWord(ws: set<char>, t: string, i: nat): (b: Boundary)
    requires i <= |t|
    ensures b.Some? ==> i < b.value <= |t|
  {
    var first := SkipSpaces(ws, t, i);
    var last := SkipWord(ws, t, first);
    var next := SkipSpaces(ws, t, last);
    if first < last < next then Some(next) else None
  }

  /** End of the `n`th completed word from `i` on. */
  function NthWord(ws: set<char>, t: string, i: nat, n: nat): (b: Boundary)
    requires i <= |t| && n >= 1
    ensures b.Some? ==> i < b.value <= |t|
    decreases n
  {
    var word := CompletedWord(ws, t, i);
    if word.None? || n == 1 then word else NthWord(ws, t, word.value, n - 1)
  }

  function WordCount(ws: set<char>, t: string, i: nat): nat
    requires i <= |t|
    decreases |t| - i
  {
    var first := SkipSpaces(ws, t, i);
    if first == |t| then 0 else 1 + WordCount(ws, t, SkipWord(ws, t, first + 1))
  }

  /** The first comma before whitespace that has at least four words before it. */
  function CommaBoundary(ws: set<char>, t: string, i: nat): (b: Boundary)
    ensures Within(b, t)
    decreases |t| - i
  {
    if i + 1 >= |t| then None
    else if t[i] == ',' && t[i + 1] in ws && WordCount(ws, t[..i + 1], 0) >= 4 then Some(i + 1)
    else CommaBoundary(ws, t, i + 1)
  }

  // ── Lines ───────────────────────────────────────────────────────────────────────────

  function SkipBlanks(t: string, i: nat): (r: nat)
    requires i <= |t|
    ensures i <= r <= |t|
    decreases |t| - i
  {
    if i < |t| && (t[i] == ' ' || t[i] == '\t') then SkipBlanks(t, i + 1) else i
  }

  function BlankLine(t: string, i: nat): (b: Boundary)
    ensures Within(b, t)
    decreases |t| - i
  {
    if i >= |t| then None
    else
      var j := SkipBlanks(t, i + 1);
      if t[i] == '\n' && j < |t| && t[j] == '\n' then Some(j + 1) else BlankLine(t, i + 1)
  }

  predicate StructuralLine(r: Rules, line: string) {
    Strip(r.spaces, line) != [] && r.structural(line)
  }

  /** The first line end that has a structural line before or after it. */
  function StructuralBreak(r: Rules, t: string, lineStart: nat): (b: Boundary)
    requires lineStart <= |t|
    ensures Within(b, t)
    decreases |t| - lineStart
  {
    var newline := Find(t, '\n', lineStart);
    if newline < 0 then None
    else
      var next := newline + 1;
      var nextNewline := Find(t, '\n', next);
      var nextLine := if nextNewline < 0 then t[next..] else t[next..nextNewline];
      if StructuralLine(r, t[lineStart..newline]) || StructuralLine(r, nextLine) then Some(next)
      else StructuralBreak(r, t, next)
  }

  function NewlineBoundary(r: Rules, mode: Mode, t: string): (b: Boundary)
    ensures Within(b, t)
  {
    if mode.Responsive? then
      var newline := Find(t, '\n', 0);
      if newline < 0 then None else Some(newline + 1)
    else Earlier(BlankLine(t, 0), StructuralBreak(r, t, 0))
  }

  // ── The boundary of the buffer ──────────────────────────────────────────────────────

  predicate WithinHardLimits(r: Rules, l: Limits, t: string) {
    var speakable := r.clean(t);
    |speakable| <= l.maxChars && WordCount(r.spaces, speakable, 0) <= l.maxWords
  }

  function HardLimit(r: Rules, l: Limits, t: string): (b: Boundary)
    requires l.maxChars >= 1 && l.maxWords >= 1
    ensures Within(b, t)
  {
    var words := NthWord(r.spaces, t, 0, l.maxWords);
    if words.Some? then words else if |t| >= l.maxChars then Some(l.maxChars) else None
  }

  function HardBoundary(r: Rules, l: Limits, t: string): (b: Boundary)
    requires l.maxChars >= 1 && l.maxWords >= 1
    ensures Within(b, t)
    ensures b.Some? <==> HardLimit(r, l, t).Some?
  {
    var limit := HardLimit(r, l, t);
    if limit.None? then None
    else
      var clause := CapClauseBoundary(r, t, limit.value);
      if l.mode.Natural? && clause.Some? then clause
      else
        var space := RFind(t, ' ', limit.value + 1);
        Some(GraphemeBoundary(r, t, if space < limit.value / 2 then limit.value else space + 1))
  }

  function NextBoundary(r: Rules, l: Limits, t: string): (b: Boundary)
    requires l.maxChars >= 1 && l.maxWords >= 1
    ensures Within(b, t)
  {
    if l.mode.InstantWord? then
      var word := CompletedWord(r.spaces, t, 0);
      if word.Some? then word else HardBoundary(r, l, t)
    else
      var natural := Earlier(SentenceBoundary(r, t, 0), NewlineBoundary(r, l.mode, t));
      if l.mode.Natural? then
        if natural.Some? && WithinHardLimits(r, l, t[..natural.value]) then natural
        else Earlier(natural, HardBoundary(r, l, t))
      else
        var clause := Earlier(ClauseBoundary(r, t, 0), CommaBoundary(r.spaces, t, 0));
        Earlier(Earlier(natural, clause), HardBoundary(r, l, t))
  }

  function IdleBoundary(r: Rules, t: string): (b: Boundary)
    ensures Within(b, t)
  {
    if t == [] then None
    else if t[|t| - 1] in r.spaces || SentenceBoundary(r, t, 0).Some? || SentenceEndsText(r, t, 0) then Some(|t|)
    else
      var blank := Max(RFind(t, ' ', |t|), Max(RFind(t, '\n', |t|), RFind(t, '\t', |t|)));
      if blank >= 0 then Some(blank + 1) else None
  }

  /** A hard cut that is no clause end: past half of the limit, and past the limit by no more than one
      space, before it moves over the marks of its last character. */
  ghost predicate NearLimit(r: Rules, t: string, limit: nat, b: nat) {
    exists cut: nat :: limit / 2 < cut <= limit + 1 && b == GraphemeBoundary(r, t, cut) && Marks(r, t, cut, b)
  }

  /** A hard cut uses more than half of the limit. It is a clause end before the limit, or passes the
      limit by no more than one space and the marks of its last character. */
  lemma HardBoundaryNearLimit(r: Rules, l: Limits, t: string)
    requires l.maxChars >= 1 && l.maxWords >= 1 && HardBoundary(r, l, t).Some?
    ensures var b, limit := HardBoundary(r, l, t), HardLimit(r, l, t).value;
            && limit / 2 < b.value
            && (NearLimit(r, t, limit, b.value) || (b == CapClauseBoundary(r, t, limit) && b.value < limit))
  {
    var limit := HardLimit(r, l, t).value;
    var clause := CapClauseBoundary(r, t, limit);
    if !(l.mode.Natural? && clause.Some?) {
      var space := RFind(t, ' ', limit + 1);
      var cut: nat := if space < limit / 2 then limit else space + 1;
      GraphemeIsWhole(r, t, cut);
      assert limit / 2 < cut <= limit + 1;
    }
  }

  predicate Blank(c: char) { c == ' ' || c == '\n' || c == '\t' }

  /** A pause cuts after the last blank, so an unfinished word stays; it takes everything only when
      the text ends in whitespace or holds a finished sentence. */
  lemma IdleKeepsUnfinishedWord(r: Rules, t: string)
    requires t != []
    ensures var finished := t[|t| - 1] in r.spaces || SentenceBoundary(r, t, 0).Some? || SentenceEndsText(r, t, 0);
            match IdleBoundary(r, t)
            case None => !finished && forall k :: 0 <= k < |t| ==> !Blank(t[k])
            case Some(b) => if finished then b == |t| else Blank(t[b - 1]) && forall k :: b <= k < |t| ==> !Blank(t[k])
  {
    RFindIsLast(t, ' ', |t|);
    RFindIsLast(t, '\n', |t|);
    RFindIsLast(t, '\t', |t|);
  }

  // ── Counting words ──────────────────────────────────────────────────────────────────

  /** Where a word ends and whitespace follows. */
  predicate WordEndsAt(ws: set<char>, t: string, k: nat) { 0 < k < |t| && t[k - 1] !in ws && t[k] in ws }

  /** How many words end after `lo` and before `hi`. */
  function WordEnds(ws: set<char>, t: string, lo: nat, hi: nat): nat {
    if hi <= lo + 1 then 0 else WordEnds(ws, t, lo, hi - 1) + if WordEndsAt(ws, t, hi - 1) then 1 else 0
  }

  lemma {:induction false} WordEndsAdd(ws: set<char>, t: string, lo: nat, mid: nat, hi: nat)
    requires lo < mid <= hi
    ensures WordEnds(ws, t, lo, hi) == WordEnds(ws, t, lo, mid) + WordEnds(ws, t, mid - 1, hi)
    decreases hi
  {
    if mid < hi { WordEndsAdd(ws, t, lo, mid, hi - 1); }
  }

  lemma {:induction false} NoWordEnds(ws: set<char>, t: string, lo: nat, hi: nat)
    requires forall k :: lo < k < hi ==> !WordEndsAt(ws, t, k)
    ensures WordEnds(ws, t, lo, hi) == 0
    decreases hi
  {
    if hi > lo + 1 { NoWordEnds(ws, t, lo, hi - 1); }
  }

  /** A completed word from `i` on, when no word goes on there: exactly one word ends before it does. */
  lemma CompletedWordLaw(ws: set<char>, t: string, i: nat)
    requires i <= |t| && !WordEndsAt(ws, t, i)
    ensures match CompletedWord(ws, t, i)
            case None => WordEnds(ws, t, i, |t|) == 0
            case Some(b) => WordEnds(ws, t, i, b) == 1 && !WordEndsAt(ws, t, b) && t[b - 1] in ws && (b < |t| ==> t[b] !in ws)
  {
    var first := SkipSpaces(ws, t, i);
    var last := SkipWord(ws, t, first);
    SkippedSpaces(ws, t, i);
    SkippedSpaces(ws, t, last);
    NoWordEnds(ws, t, i, last);
    if first < last < |t| {
      var next := SkipSpaces(ws, t, last);
      assert WordEndsAt(ws, t, last) && WordEnds(ws, t, i, last + 1) == 1;
      NoWordEnds(ws, t, last, next);
      WordEndsAdd(ws, t, i, last + 1, next);
    }
  }

  lemma WordEndsJoin(ws: set<char>, t: string, lo: nat, mid: nat, hi: nat)
    requires lo < mid <= hi && !WordEndsAt(ws, t, mid)
    ensures WordEnds(ws, t, lo, hi) == WordEnds(ws, t, lo, mid) + WordEnds(ws, t, mid, hi)
  {
    WordEndsAdd(ws, t, lo, mid, hi);
    if mid < hi {
      WordEndsAdd(ws, t, mid - 1, mid + 1, hi);
      assert WordEnds(ws, t, mid - 1, mid + 1) == 0;
    }
  }

  /** The words up to the end of the `n`th completed one are `n`, or there are fewer. */
  lemma {:induction false} NthWordLaw(ws: set<char>, t: string, i: nat, n: nat)
    requires i <= |t| && n >= 1 && !WordEndsAt(ws, t, i)
    ensures match NthWord(ws, t, i, n)
            case None => WordEnds(ws, t, i, |t|) < n
            case Some(b) => WordEnds(ws, t, i, b) == n && t[b - 1] in ws && (b < |t| ==> t[b] !in ws)
    decreases n
  {
    CompletedWordLaw(ws, t, i);
    var word := CompletedWord(ws, t, i);
    if word.Some? && n > 1 {
      NthWordLaw(ws, t, word.value, n - 1);
      var end := if NthWord(ws, t, i, n).Some? then NthWord(ws, t, i, n).value else |t|;
      WordEndsJoin(ws, t, i, word.value, end);
    }
  }

  /** The hard limit is where the last allowed word ends, else the last allowed character, or neither is
      reached. */
  lemma HardLimitLaw(r: Rules, l: Limits, t: string)
    requires l.maxChars >= 1 && l.maxWords >= 1
    ensures match HardLimit(r, l, t)
            case None => WordEnds(r.spaces, t, 0, |t|) < l.maxWords && |t| < l.maxChars
            case Some(limit) =>
              || (WordEnds(r.spaces, t, 0, limit) == l.maxWords && t[limit - 1] in r.spaces && (limit < |t| ==> t[limit] !in r.spaces))
              || (WordEnds(r.spaces, t, 0, |t|) < l.maxWords && limit == l.maxChars <= |t|)
  {
    NthWordLaw(r.spaces, t, 0, l.maxWords);
  }

  /** Where a word begins. */
  predicate WordStartsAt(ws: set<char>, t: string, i: nat, k: nat) {
    i <= k < |t| && t[k] !in ws && (k == i || t[k - 1] in ws)
  }

  function WordStarts(ws: set<char>, t: string, i: nat, k: nat): nat
    decreases |t| - k
  {
    if k >= |t| then 0 else WordStarts(ws, t, i, k + 1) + if WordStartsAt(ws, t, i, k) then 1 else 0
  }

  lemma {:induction false} NoWordStarts(ws: set<char>, t: string, i: nat, lo: nat, hi: nat)
    requires lo <= hi <= |t| && forall k :: lo <= k < hi ==> !WordStartsAt(ws, t, i, k)
    ensures WordStarts(ws, t, i, lo) == WordStarts(ws, t, i, hi)
    decreases hi - lo
  {
    if lo < hi { NoWordStarts(ws, t, i, lo + 1, hi); }
  }

  /** The count of words is the count of their beginnings. */
  lemma {:induction false} WordCountLaw(ws: set<char>, t: string, i: nat, from: nat)
    requires from <= i <= |t| && (i == from || i == |t| || t[i] in ws)
    ensures WordCount(ws, t, i) == WordStarts(ws, t, from, i)
    decreases |t| - i
  {
    var first := SkipSpaces(ws, t, i);
    SkippedSpaces(ws, t, i);
    NoWordStarts(ws, t, from, i, first);
    if first < |t| {
      var last := SkipWord(ws, t, first + 1);
      NoWordStarts(ws, t, from, first + 1, last);
      WordCountLaw(ws, t, last, from);
    }
  }

  /** A comma before whitespace, with at least four words up to it. */
  predicate CommaAt(ws: set<char>, t: string, k: nat) {
    k + 1 < |t| && t[k] == ',' && t[k + 1] in ws && WordStarts(ws, t[..k + 1], 0, 0) >= 4
  }

  lemma {:induction false} CommaBoundaryIsFirst(ws: set<char>, t: string, i: nat)
    ensures match CommaBoundary(ws, t, i)
            case None => forall k: nat :: i <= k ==> !CommaAt(ws, t, k)
            case Some(b) => i < b && CommaAt(ws, t, b - 1) && forall k: nat :: i <= k < b - 1 ==> !CommaAt(ws, t, k)
    decreases |t| - i
  {
    if i + 1 < |t| {
      WordCountLaw(ws, t[..i + 1], 0, 0);
      if !CommaAt(ws, t, i) { CommaBoundaryIsFirst(ws, t, i + 1); }
    }
  }

  // ── The first line break ────────────────────────────────────────────────────────────

  predicate Indent(c: char) { c == ' ' || c == '\t' }

  lemma {:induction false} BlanksSkipped(t: string, i: nat)
    requires i <= |t|
    ensures var r := SkipBlanks(t, i);
            (forall k :: i <= k < r ==> Indent(t[k])) && (r < |t| ==> !Indent(t[r]))
    decreases |t| - i
  {
    if i < |t| && Indent(t[i]) { BlanksSkipped(t, i + 1); }
  }

  /** The line that begins after the newline at `i` and ends at `b` is blank. */
  ghost predicate BlankLineAt(t: string, i: nat, b: nat) {
    && i + 1 < b <= |t| && t[i] == '\n' && t[b - 1] == '\n'
    && forall k :: i < k < b - 1 ==> Indent(t[k])
  }

  /** The newline at `n` ends a structural line, or one follows it. */
  predicate StructuralAt(r: Rules, t: string, n: nat)
    requires n < |t|
  {
    var nextNewline := Find(t, '\n', n + 1);
    && t[n] == '\n'
    && (StructuralLine(r, t[RFind(t, '\n', n) + 1..n])
        || StructuralLine(r, if nextNewline < 0 then t[n + 1..] else t[n + 1..nextNewline]))
  }

  ghost predicate BlankLineFrom(t: string, p: nat, b: nat) {
    exists i: nat :: p <= i && BlankLineAt(t, i, b)
  }

  lemma NoBlankLineHere(t: string, p: nat, b: nat)
    requires p < |t| && BlankLineAt(t, p, b)
    ensures b - 1 == SkipBlanks(t, p + 1) && BlankLine(t, p) == Some(b)
  {
    BlanksSkipped(t, p + 1);
  }

  ghost predicate FirstBlankLine(t: string, p: nat, b: Boundary) {
    match b
    case None => forall c: nat :: !BlankLineFrom(t, p, c)
    case Some(e) => BlankLineFrom(t, p, e) && forall c: nat :: c < e ==> !BlankLineFrom(t, p, c)
  }

  lemma {:induction false} BlankLineIsFirst(t: string, p: nat)
    ensures FirstBlankLine(t, p, BlankLine(t, p))
    decreases |t| - p
  {
    if p < |t| {
      var j := SkipBlanks(t, p + 1);
      BlanksSkipped(t, p + 1);
      if t[p] == '\n' && j < |t| && t[j] == '\n' {
        assert BlankLineAt(t, p, j + 1);
        forall c: nat | BlankLineFrom(t, p, c)
          ensures j + 1 <= c
        {
          var i: nat :| p <= i && BlankLineAt(t, i, c);
          assert p < c - 1 && !Indent(t[c - 1]);
        }
      } else {
        BlankLineIsFirst(t, p + 1);
        forall b: nat
          ensures BlankLineFrom(t, p, b) <==> BlankLineFrom(t, p + 1, b)
        {
          if BlankLineAt(t, p, b) { NoBlankLineHere(t, p, b); }
        }
      }
    }
  }

  /** The line before a newline begins where the search for the newline began. */
  lemma OneLine(r: Rules, t: string, lineStart: nat, newline: nat)
    requires lineStart <= |t| && (lineStart == 0 || t[lineStart - 1] == '\n')
    requires Find(t, '\n', lineStart) == newline
    ensures RFind(t, '\n', newline) == lineStart - 1
    ensures forall n: nat :: lineStart <= n < newline ==> t[n] != '\n'
  {
    FindIsFirst(t, '\n', lineStart);
    RFindIsLast(t, '\n', newline);
  }

  ghost predicate NoStructural(r: Rules, t: string, lo: nat, hi: nat)
    requires hi <= |t|
  {
    forall n: nat :: lo <= n < hi ==> !StructuralAt(r, t, n)
  }

  /** `b` is right after the first newline from `lo` on that is structural, or there is none. */
  ghost predicate FirstBreak(r: Rules, t: string, lo: nat, b: Boundary) {
    match b
    case None => NoStructural(r, t, lo, |t|)
    case Some(e) => lo < e <= |t| && StructuralAt(r, t, e - 1) && NoStructural(r, t, lo, e - 1)
  }

  lemma BreakAtNewline(r: Rules, t: string, lineStart: nat, newline: nat)
    requires lineStart <= newline < |t| && Find(t, '\n', lineStart) == newline
    requires RFind(t, '\n', newline) == lineStart - 1
    ensures StructuralBreak(r, t, lineStart)
            == if StructuralAt(r, t, newline) then Some(newline + 1) else StructuralBreak(r, t, newline + 1)
  {
    assert t[RFind(t, '\n', newline) + 1..newline] == t[lineStart..newline];
  }

  /** A newline at the end of the line that is not structural is no reason to stop. */
  lemma FirstBreakFrom(r: Rules, t: string, lo: nat, newline: nat, b: Boundary)
    requires lo <= newline < |t| && forall n: nat :: lo <= n < newline ==> t[n] != '\n'
    requires if StructuralAt(r, t, newline) then b == Some(newline + 1) else FirstBreak(r, t, newline + 1, b)
    ensures FirstBreak(r, t, lo, b)
  {
  }

  lemma FirstBreakStep(r: Rules, t: string, lineStart: nat, newline: nat)
    requires lineStart <= newline < |t| && (lineStart == 0 || t[lineStart - 1] == '\n')
    requires Find(t, '\n', lineStart) == newline
    requires FirstBreak(r, t, newline + 1, StructuralBreak(r, t, newline + 1))
    ensures FirstBreak(r, t, lineStart, StructuralBreak(r, t, lineStart))
  {
    OneLine(r, t, lineStart, newline);
    BreakAtNewline(r, t, lineStart, newline);
    FirstBreakFrom(r, t, lineStart, newline, StructuralBreak(r, t, lineStart));
  }

  lemma NoBreakLeft(r: Rules, t: string, lineStart: nat)
    requires lineStart <= |t| && Find(t, '\n', lineStart) < 0
    ensures FirstBreak(r, t, lineStart, StructuralBreak(r, t, lineStart))
  {
    FindIsFirst(t, '\n', lineStart);
  }

  lemma {:induction false} StructuralBreakIsFirst(r: Rules, t: string, lineStart: nat)
    requires lineStart <= |t| && (lineStart == 0 || t[lineStart - 1] == '\n')
    ensures FirstBreak(r, t, lineStart, StructuralBreak(r, t, lineStart))
    decreases |t| - lineStart
  {
    var newline := Find(t, '\n', lineStart);
    if newline < 0 {
      NoBreakLeft(r, t, lineStart);
    } else {
      StructuralBreakIsFirst(r, t, newline + 1);
      FirstBreakStep(r, t, lineStart, newline);
    }
  }

  /** A place where the text may be cut at a line break, in natural mode. */
  ghost predicate BreakAt(r: Rules, t: string, b: nat) {
    BlankLineFrom(t, 0, b) || (1 <= b <= |t| && StructuralAt(r, t, b - 1))
  }

  ghost predicate FirstLineBreak(r: Rules, mode: Mode, t: string, b: Boundary) {
    match b
    case None => if mode.Responsive? then '\n' !in t else forall c: nat :: !BreakAt(r, t, c)
    case Some(e) =>
      if mode.Responsive? then 1 <= e <= |t| && t[e - 1] == '\n' && '\n' !in t[..e - 1]
      else BreakAt(r, t, e) && forall c: nat :: c < e ==> !BreakAt(r, t, c)
  }

  /** The newline boundary is the first of them; in responsive mode it is the first newline. */
  lemma NewlineBoundaryIsFirst(r: Rules, mode: Mode, t: string)
    ensures FirstLineBreak(r, mode, t, NewlineBoundary(r, mode, t))
  {
    FindIsFirst(t, '\n', 0);
    if !mode.Responsive? {
      BlankLineIsFirst(t, 0);
      StructuralBreakIsFirst(r, t, 0);
      var blank, structural := BlankLine(t, 0), StructuralBreak(r, t, 0);
      forall c: nat | BreakAt(r, t, c)
        ensures (blank.Some? && blank.value <= c) || (structural.Some? && structural.value <= c)
      {
        assert BlankLineFrom(t, 0, c) || StructuralAt(r, t, c - 1);
      }
    }
  }

  // ── The earliest boundary of a mode ─────────────────────────────────────────────────

  ghost predicate Among(a: Boundary, b: Boundary, c: Boundary, d: Boundary, x: nat) {
    a == Some(x) || b == Some(x) || c == Some(x) || d == Some(x)
  }

  /** `e` is the earliest of five boundaries, or there is none of them. */
  ghost predicate Earliest(a: Boundary, b: Boundary, c: Boundary, d: Boundary, hard: Boundary, e: Boundary) {
    match e
    case None => hard.None? && forall x: nat :: !Among(a, b, c, d, x)
    case Some(x) =>
      && (Among(a, b, c, d, x) || hard == e)
      && (forall y: nat :: Among(a, b, c, d, y) ==> x <= y)
      && (hard.Some? ==> x <= hard.value)
  }

  /** Natural mode: the first sentence or line end, whatever the hard limit of the raw text, if what
      would be spoken is within the limits. */
  ghost predicate NaturalFits(r: Rules, l: Limits, t: string, b: nat) {
    && l.mode.Natural? && b <= |t| && |r.clean(t[..b])| <= l.maxChars && WordStarts(r.spaces, r.clean(t[..b]), 0, 0) <= l.maxWords
    && Earliest(SentenceBoundary(r, t, 0), NewlineBoundary(r, l.mode, t), None, None, None, Some(b))
  }

  lemma EarlierIsEarliest(a: Boundary, b: Boundary, c: Boundary, d: Boundary, hard: Boundary)
    ensures Earliest(a, b, c, d, hard, Earlier(Earlier(Earlier(a, b), Earlier(c, d)), hard))
    ensures Earliest(a, b, None, None, hard, Earlier(Earlier(a, b), hard))
    ensures Earliest(a, b, None, None, None, Earlier(a, b))
  {
  }

  /** The boundary is the earliest one there is, except that a natural boundary whose text is within
      the limits comes before the hard one. */
  lemma NextBoundaryIsEarliest(r: Rules, l: Limits, t: string)
    requires l.maxChars >= 1 && l.maxWords >= 1 && !l.mode.InstantWord?
    ensures var clause := if l.mode.Responsive? then ClauseBoundary(r, t, 0) else None;
            var comma := if l.mode.Responsive? then CommaBoundary(r.spaces, t, 0) else None;
            var next := NextBoundary(r, l, t);
            || Earliest(SentenceBoundary(r, t, 0), NewlineBoundary(r, l.mode, t), clause, comma, HardBoundary(r, l, t), next)
            || (next.Some? && NaturalFits(r, l, t, next.value))
  {
    EarlierIsEarliest(SentenceBoundary(r, t, 0), NewlineBoundary(r, l.mode, t),
                      ClauseBoundary(r, t, 0), CommaBoundary(r.spaces, t, 0), HardBoundary(r, l, t));
    var natural := Earlier(SentenceBoundary(r, t, 0), NewlineBoundary(r, l.mode, t));
    if natural.Some? { WordCountLaw(r.spaces, r.clean(t[..natural.value]), 0, 0); }
  }

  lemma NaturalComesFirst(r: Rules, l: Limits, t: string, b: nat)
    requires l.maxChars >= 1 && l.maxWords >= 1 && NaturalFits(r, l, t, b)
    ensures NextBoundary(r, l, t) == Some(b)
  {
    EarlierIsEarliest(SentenceBoundary(r, t, 0), NewlineBoundary(r, l.mode, t), None, None, None);
    WordCountLaw(r.spaces, r.clean(t[..b]), 0, 0);
  }

  /** Whitespace, one word, and all the whitespace after it. */
  ghost predicate OneWord(ws: set<char>, t: string, first: nat, last: nat, b: nat) {
    && first < last < b <= |t| && AllSpace(ws, t, 0, first) && AllSpace(ws, t, last, b)
    && (forall k :: first <= k < last ==> t[k] !in ws) && (b < |t| ==> t[b] !in ws)
  }

  /** In instant mode a completed word is cut off alone. */
  lemma InstantCutsOneWord(r: Rules, l: Limits, t: string)
    requires l.maxChars >= 1 && l.maxWords >= 1 && l.mode.InstantWord?
    ensures match NextBoundary(r, l, t)
            case None => forall first: nat, last: nat, b: nat :: !OneWord(r.spaces, t, first, last, b)
            case Some(b) => (exists first: nat, last: nat :: OneWord(r.spaces, t, first, last, b)) || HardBoundary(r, l, t) == Some(b)
  {
    var first := SkipSpaces(r.spaces, t, 0);
    var last := SkipWord(r.spaces, t, first);
    SkippedSpaces(r.spaces, t, 0);
    SkippedSpaces(r.spaces, t, last);
    if CompletedWord(r.spaces, t, 0).Some? {
      assert OneWord(r.spaces, t, first, last, SkipSpaces(r.spaces, t, last));
    }
    if f: nat, e: nat, b: nat :| OneWord(r.spaces, t, f, e, b) {
      assert t[f] !in r.spaces && t[e] in r.spaces;
      assert first == f && last == e;
    }
  }
}
