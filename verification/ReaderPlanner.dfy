/** `ReaderRenderer`: the window of audio parts a listener needs next, while one worker fills it in.
    A part is identified by what its id hashes: document, model, voice and blocks. */
module ReaderPlanner {

  import opened Text

  datatype Track = Track(document: string, model: string, voice: string)
  datatype Part = Part(track: Track, first: nat, last: nat)   // the blocks first, ..., last
  datatype Block = Block(chapter: int, chars: nat, heading: bool)
  type Outline = seq<Block>

  /** lookahead_parts and part_max_chars */
  datatype Config = Config(lookahead: nat, maxChars: nat) {
    ghost predicate Valid() { lookahead >= 1 }
  }

  // ------------------------------------------------------------------------------------ planning

  /** The last block of the longest recorded part below `bound` that begins at `first`, or -1. */
  function LongestFrom(rows: set<Part>, track: Track, first: nat, bound: nat): (last: int)
    ensures -1 <= last < bound
    ensures last >= 0 ==> Part(track, first, last) in rows
    ensures forall l: nat {:trigger Part(track, first, l)} :: last < l < bound ==> Part(track, first, l) !in rows
  {
    if bound == 0 then -1
    else if Part(track, first, bound - 1) in rows then bound - 1
    else LongestFrom(rows, track, first, bound - 1)
  }

  /** `ready_parts`: the longest part for each first block. */
  function ReadyParts(rows: set<Part>, track: Track, n: nat): map<nat, nat> {
    map first: nat | 0 <= first < n && LongestFrom(rows, track, first, n) >= 0 :: LongestFrom(rows, track, first, n) as nat
  }

  predicate Joins(outline: Outline, ready: map<nat, nat>, chapter: int, index: nat) {
    index < |outline| && outline[index].chapter == chapter && index !in ready
  }

  /** A heading takes the block after it along. */
  function HeadingEnd(outline: Outline, ready: map<nat, nat>, chapter: int, last: nat): (end: nat)
    requires last < |outline|
    ensures last <= end < |outline|
    decreases |outline| - last
  {
    if outline[last].heading && Joins(outline, ready, chapter, last + 1) then HeadingEnd(outline, ready, chapter, last + 1)
    else last
  }

  function Chars(outline: Outline, first: nat, last: nat): nat
    requires first <= last < |outline|
  {
    outline[last].chars + if first == last then 0 else Chars(outline, first, last - 1)
  }

  /** As many more blocks of the chapter as fit. */
  function Extended(outline: Outline, ready: map<nat, nat>, chapter: int, last: nat, chars: nat, maxChars: nat): (end: nat)
    requires last < |outline|
    ensures last <= end < |outline|
    decreases |outline| - last
  {
    if Joins(outline, ready, chapter, last + 1) && chars + outline[last + 1].chars <= maxChars
    then Extended(outline, ready, chapter, last + 1, chars + outline[last + 1].chars, maxChars)
    else last
  }

  /** The last block of a part that is cut anew. The first part of a window stays short. */
  function NewLast(c: Config, outline: Outline, ready: map<nat, nat>, first: nat, opening: bool): (last: nat)
    requires first < |outline|
    ensures first <= last < |outline|
  {
    var chapter := outline[first].chapter;
    var last := HeadingEnd(outline, ready, chapter, first);
    if opening then last else Extended(outline, ready, chapter, last, Chars(outline, first, last), c.maxChars)
  }

  /** The part of the current job that begins at a block. */
  function Queued(parts: seq<Part>, first: nat): Option<Part> {
    if parts == [] then None
    else if parts[|parts| - 1].first == first then Some(parts[|parts| - 1])
    else Queued(parts[..|parts| - 1], first)
  }

  /** Ready and queued parts lie in the outline. */
  ghost predicate Inside(n: nat, ready: map<nat, nat>, queue: seq<Part>) {
    && (forall first :: first in ready ==> first <= ready[first] < n)
    && (forall k :: 0 <= k < |queue| ==> queue[k].first <= queue[k].last < n)
  }

  /** `gone` are the first blocks whose ready part has lost its file. */
  function LastOf(c: Config, outline: Outline, ready: map<nat, nat>, gone: set<nat>, queue: seq<Part>, first: nat,
      opening: bool): (last: nat)
    requires first < |outline|
  {
    if first in ready && first !in gone then ready[first]
    else match Queued(queue, first)
      case Some(part) => part.last
      case None => NewLast(c, outline, ready, first, opening)
  }

  /** The window from `cursor` on, when `count` parts are planned already. */
  function Window(c: Config, outline: Outline, track: Track, ready: map<nat, nat>, gone: set<nat>, queue: seq<Part>,
      cursor: nat, count: nat): (parts: seq<Part>)
    decreases c.lookahead as int - count
  {
    if count >= c.lookahead || cursor >= |outline| then []
    else
      var last := LastOf(c, outline, ready, gone, queue, cursor, count == 0);
      [Part(track, cursor, last)] + Window(c, outline, track, ready, gone, queue, last + 1, count + 1)
  }

  /** Contiguous parts from `from` on. */
  ghost predicate Contiguous(parts: seq<Part>, track: Track, from: nat, n: nat) {
    && (forall k :: 0 <= k < |parts| ==> parts[k].track == track && parts[k].first <= parts[k].last < n)
    && (parts != [] ==> parts[0].first == from)
    && (forall j, k :: 0 <= j < k < |parts| && k == j + 1 ==> parts[k].first == parts[j].last + 1)
  }

  /** A window has no gap, and is as long as it may be or reaches the end of the document. */
  ghost predicate IsWindow(c: Config, parts: seq<Part>, track: Track, from: nat, n: nat) {
    && parts != [] && Contiguous(parts, track, from, n)
    && |parts| <= c.lookahead && (|parts| == c.lookahead || parts[|parts| - 1].last + 1 == n)
  }

  lemma {:induction false} QueuedInside(queue: seq<Part>, first: nat, n: nat)
    requires forall k :: 0 <= k < |queue| ==> queue[k].first <= queue[k].last < n
    ensures Queued(queue, first).Some? ==> first <= Queued(queue, first).value.last < n
  {
    if queue != [] { QueuedInside(queue[..|queue| - 1], first, n); }
  }

  /** `parts` go on from `cursor` when `count` parts are planned already. */
  ghost predicate Continues(c: Config, parts: seq<Part>, track: Track, cursor: nat, count: nat, n: nat) {
    && Contiguous(parts, track, cursor, n)
    && (|parts| + count < c.lookahead ==> if parts == [] then cursor == n else parts[|parts| - 1].last + 1 == n)
    && (count <= c.lookahead ==> |parts| + count <= c.lookahead)
  }

  lemma OnePartBefore(c: Config, part: Part, rest: seq<Part>, count: nat, n: nat)
    requires part.first <= part.last < n && count < c.lookahead && Continues(c, rest, part.track, part.last + 1, count + 1, n)
    ensures Continues(c, [part] + rest, part.track, part.first, count, n)
  {
    var parts := [part] + rest;
    forall j, k | 0 <= j < k < |parts| && k == j + 1
      ensures parts[k].first == parts[j].last + 1
    {
      assert parts[k] == rest[j];
      if j > 0 { assert rest[j].first == rest[j - 1].last + 1; }
    }
  }

  lemma {:induction false} WindowShape(c: Config, outline: Outline, track: Track, ready: map<nat, nat>,
      gone: set<nat>, queue: seq<Part>, cursor: nat, count: nat)
    requires Inside(|outline|, ready, queue) && cursor <= |outline|
    ensures Continues(c, Window(c, outline, track, ready, gone, queue, cursor, count), track, cursor, count, |outline|)
    decreases c.lookahead as int - count
  {
    if count < c.lookahead && cursor < |outline| {
      QueuedInside(queue, cursor, |outline|);
      var last := LastOf(c, outline, ready, gone, queue, cursor, count == 0);
      WindowShape(c, outline, track, ready, gone, queue, last + 1, count + 1);
      OnePartBefore(c, Part(track, cursor, last), Window(c, outline, track, ready, gone, queue, last + 1, count + 1), count, |outline|);
    }
  }

  /** A new part stays in its chapter and swallows no start of a ready part. */
  ghost predicate NewPart(outline: Outline, ready: map<nat, nat>, first: nat, last: nat) {
    forall k :: first < k <= last < |outline| ==> outline[k].chapter == outline[first].chapter && k !in ready
  }

  /** Where a new part may stop: it holds more than headings, or nothing more joins it. */
  ghost predicate SpeaksMore(outline: Outline, ready: map<nat, nat>, first: nat, last: nat) {
    last < |outline| && first < |outline| &&
    ((exists k :: first <= k <= last && !outline[k].heading) || !Joins(outline, ready, outline[first].chapter, last + 1))
  }

  /** Everything before the last block of the part is a heading. */
  ghost predicate OnlyHeadings(outline: Outline, first: nat, last: nat)
    requires last <= |outline|
  {
    forall k :: first <= k < last ==> outline[k].heading
  }

  lemma {:induction false} HeadingEndLaw(outline: Outline, ready: map<nat, nat>, first: nat, last: nat)
    requires first <= last < |outline| && NewPart(outline, ready, first, last) && OnlyHeadings(outline, first, last)
    ensures var end := HeadingEnd(outline, ready, outline[first].chapter, last);
            NewPart(outline, ready, first, end) && SpeaksMore(outline, ready, first, end) && OnlyHeadings(outline, first, end)
    decreases |outline| - last
  {
    if outline[last].heading && Joins(outline, ready, outline[first].chapter, last + 1) {
      HeadingEndLaw(outline, ready, first, last + 1);
    }
  }

  lemma {:induction false} ExtendedLaw(outline: Outline, ready: map<nat, nat>, first: nat, last: nat, maxChars: nat)
    requires first <= last < |outline| && NewPart(outline, ready, first, last) && SpeaksMore(outline, ready, first, last)
    ensures var end := Extended(outline, ready, outline[first].chapter, last, Chars(outline, first, last), maxChars);
            && NewPart(outline, ready, first, end) && SpeaksMore(outline, ready, first, end)
            && (end > last ==> Chars(outline, first, end) <= maxChars)
            && (Joins(outline, ready, outline[first].chapter, end + 1) ==> Chars(outline, first, end + 1) > maxChars)
    decreases |outline| - last
  {
    if Joins(outline, ready, outline[first].chapter, last + 1) && Chars(outline, first, last) + outline[last + 1].chars <= maxChars {
      var k :| first <= k <= last && !outline[k].heading;
      assert first <= k <= last + 1;
      ExtendedLaw(outline, ready, first, last + 1, maxChars);
    }
  }

  /** What a newly cut part is: blocks of one chapter up to the next ready part, never headings
      alone while more joins, and after the first part of a window as much as fits. */
  lemma NewPartLaw(c: Config, outline: Outline, ready: map<nat, nat>, first: nat, opening: bool)
    requires first < |outline|
    ensures var last := NewLast(c, outline, ready, first, opening);
            && NewPart(outline, ready, first, last) && SpeaksMore(outline, ready, first, last)
            && (opening || Chars(outline, first, last) > c.maxChars ==> OnlyHeadings(outline, first, last))
            && (!opening && Joins(outline, ready, outline[first].chapter, last + 1) ==> Chars(outline, first, last + 1) > c.maxChars)
  {
    HeadingEndLaw(outline, ready, first, first);
    ExtendedLaw(outline, ready, first, HeadingEnd(outline, ready, outline[first].chapter, first), c.maxChars);
  }

  // ----------------------------------------------------------------------------------- stability

  lemma {:induction false} WindowParts(c: Config, outline: Outline, track: Track, ready: map<nat, nat>,
      gone: set<nat>, queue: seq<Part>, cursor: nat, count: nat, k: nat)
    requires k < |Window(c, outline, track, ready, gone, queue, cursor, count)|
    ensures var part := Window(c, outline, track, ready, gone, queue, cursor, count)[k];
            && part.track == track && part.first < |outline|
            && part.last == LastOf(c, outline, ready, gone, queue, part.first, count + k == 0)
    decreases k
  {
    if k > 0 {
      var last := LastOf(c, outline, ready, gone, queue, cursor, count == 0);
      WindowParts(c, outline, track, ready, gone, queue, last + 1, count + 1, k - 1);
    }
  }

  /** The last part of a list that begins at a block. */
  ghost predicate IsQueued(queue: seq<Part>, first: nat, last: nat) {
    exists k :: 0 <= k < |queue| && queue[k].first == first && queue[k].last == last && forall j :: k < j < |queue| ==> queue[j].first != first
  }

  lemma {:induction false} QueuedLaw(queue: seq<Part>, first: nat)
    ensures match Queued(queue, first)
            case None => forall k :: 0 <= k < |queue| ==> queue[k].first != first
            case Some(part) => IsQueued(queue, first, part.last)
  {
    if queue != [] && queue[|queue| - 1].first != first { QueuedLaw(queue[..|queue| - 1], first); }
  }

  /** So in every window: a ready part stays as it is, then a queued one; a part that is neither keeps to its
      chapter, swallows no start of a ready part and does not end on headings alone. */
  lemma CutPartsLaw(c: Config, outline: Outline, track: Track, ready: map<nat, nat>, gone: set<nat>,
      queue: seq<Part>, from: nat, k: nat)
    requires k < |Window(c, outline, track, ready, gone, queue, from, 0)|
    ensures var part := Window(c, outline, track, ready, gone, queue, from, 0)[k];
            if part.first in ready && part.first !in gone then part.last == ready[part.first]
            else if exists j :: 0 <= j < |queue| && queue[j].first == part.first then IsQueued(queue, part.first, part.last)
            else
              && part.first <= part.last && NewPart(outline, ready, part.first, part.last) && SpeaksMore(outline, ready, part.first, part.last)
              && (k == 0 || Chars(outline, part.first, part.last) > c.maxChars ==> OnlyHeadings(outline, part.first, part.last))
              && (k > 0 && Joins(outline, ready, outline[part.first].chapter, part.last + 1) ==>
                    Chars(outline, part.first, part.last + 1) > c.maxChars)
  {
    WindowParts(c, outline, track, ready, gone, queue, from, 0, k);
    QueuedLaw(queue, Window(c, outline, track, ready, gone, queue, from, 0)[k].first);
    NewPartLaw(c, outline, ready, Window(c, outline, track, ready, gone, queue, from, 0)[k].first, k == 0);
  }

  lemma {:induction false} FirstsIncrease(parts: seq<Part>, track: Track, from: nat, n: nat, j: nat, k: nat)
    requires Contiguous(parts, track, from, n) && j < k < |parts|
    ensures parts[j].first < parts[k].first
  {
    if j + 1 < k { FirstsIncrease(parts, track, from, n, j, k - 1); }
  }

  lemma {:induction false} QueuedIs(parts: seq<Part>, track: Track, from: nat, n: nat, k: nat)
    requires Contiguous(parts, track, from, n) && k < |parts|
    ensures Queued(parts, parts[k].first) == Some(parts[k])
  {
    if k + 1 < |parts| {
      FirstsIncrease(parts, track, from, n, k, |parts| - 1);
      QueuedIs(parts[..|parts| - 1], track, from, n, k);
    }
  }

  /** The parts of the window that are ready are ready as planned. */
  ghost predicate Agrees(ready: map<nat, nat>, parts: seq<Part>) {
    forall k :: 0 <= k < |parts| && parts[k].first in ready ==> ready[parts[k].first] == parts[k].last
  }

  /** Planning from a part of the window, with the window as the queue, plans the rest of it again. */
  lemma {:induction false} Replanned(c: Config, outline: Outline, track: Track, ready: map<nat, nat>,
      parts: seq<Part>, from: nat, k: nat, count: nat)
    requires Contiguous(parts, track, from, |outline|) && Agrees(ready, parts)
    requires k <= |parts| && |parts| - k + count <= c.lookahead
    ensures var cursor := if k < |parts| then parts[k].first else if parts == [] then from else parts[|parts| - 1].last + 1;
            var again := Window(c, outline, track, ready, {}, parts, cursor, count);
            && parts[k..] <= again
            && (|parts| - k + count == c.lookahead || cursor >= |outline| ==> again == parts[k..])
            && (parts != [] && parts[|parts| - 1].last + 1 == |outline| ==> again == parts[k..])
    decreases |parts| - k
  {
    if k < |parts| {
      QueuedIs(parts, track, from, |outline|, k);
      Replanned(c, outline, track, ready, parts, from, k + 1, count + 1);
      assert parts[k..] == [parts[k]] + parts[k + 1..];
    }
  }

  /** What saving parts of a window and pruning with its keep set may have made of the records. */
  ghost predicate Later(before: set<Part>, parts: seq<Part>, after: set<Part>) {
    && (forall p :: p in after ==> p in before || p in parts)
    && (forall p :: p in parts && p in before ==> p in after)
  }

  lemma LaterAgrees(c: Config, outline: Outline, track: Track, before: set<Part>, queue: seq<Part>, from: nat,
      after: set<Part>)
    requires from < |outline| && Inside(|outline|, ReadyParts(before, track, |outline|), queue)
    requires var parts := Window(c, outline, track, ReadyParts(before, track, |outline|), {}, queue, from, 0);
             Later(before, parts, after)
    ensures var parts := Window(c, outline, track, ReadyParts(before, track, |outline|), {}, queue, from, 0);
            Agrees(ReadyParts(after, track, |outline|), parts)
  {
    var n := |outline|;
    var ready, later := ReadyParts(before, track, n), ReadyParts(after, track, n);
    var parts := Window(c, outline, track, ready, {}, queue, from, 0);
    WindowShape(c, outline, track, ready, {}, queue, from, 0);
    forall k | 0 <= k < |parts| && parts[k].first in later
      ensures later[parts[k].first] == parts[k].last
    {
      var part, found := parts[k], Part(track, parts[k].first, later[parts[k].first]);
      WindowParts(c, outline, track, ready, {}, queue, from, 0, k);
      if j :| 0 <= j < |parts| && parts[j] == found {
        if j < k { FirstsIncrease(parts, track, from, n, j, k); }
        if k < j { FirstsIncrease(parts, track, from, n, k, j); }
      }
    }
  }

  /** The window does not change while the worker fills it in, and planning from the first block of
      any of its parts starts with the rest of it. */
  lemma WindowIsStable(c: Config, outline: Outline, track: Track, before: set<Part>, queue: seq<Part>, from: nat,
      after: set<Part>, k: nat)
    requires c.Valid() && from < |outline| && Inside(|outline|, ReadyParts(before, track, |outline|), queue)
    requires var parts := Window(c, outline, track, ReadyParts(before, track, |outline|), {}, queue, from, 0);
             Later(before, parts, after) && k < |parts|
    ensures var parts := Window(c, outline, track, ReadyParts(before, track, |outline|), {}, queue, from, 0);
            var again := Window(c, outline, track, ReadyParts(after, track, |outline|), {}, parts, parts[k].first, 0);
            parts[k..] <= again && (k == 0 ==> again == parts)
  {
    var n := |outline|;
    var parts := Window(c, outline, track, ReadyParts(before, track, n), {}, queue, from, 0);
    WindowShape(c, outline, track, ReadyParts(before, track, n), {}, queue, from, 0);
    LaterAgrees(c, outline, track, before, queue, from, after);
    Replanned(c, outline, track, ReadyParts(after, track, n), parts, from, k, 0);
    assert parts[0..] == parts;
  }

  // ------------------------------------------------------------------------------------- pruning

  const RECENTLY_PLAYED_S := 300.0

  datatype Row = Row(bytes: nat, lastAccess: real)
  type Rows = map<Part, Row>

  function Total(rows: Rows, order: seq<Part>): nat {
    if order == [] then 0
    else
      var last := order[|order| - 1];
      Total(rows, order[..|order| - 1]) + if last in rows then rows[last].bytes else 0
  }

  ghost predicate InOrder(rows: Rows, order: seq<Part>, i: nat, j: nat)
    requires i < j < |order|
  {
    && order[i] in rows && order[j] in rows && order[i] != order[j]
    && rows[order[i]].lastAccess <= rows[order[j]].lastAccess
  }

  /** All parts, least recently used first, as the database lists them. */
  ghost predicate IsOrder(rows: Rows, order: seq<Part>) {
    && (forall p :: p in order <==> p in rows)
    && (forall i, j {:trigger InOrder(rows, order, i, j)} :: 0 <= i < j < |order| ==> InOrder(rows, order, i, j))
  }

  lemma {:induction false} TotalWithout(rows: Rows, order: seq<Part>, k: nat)
    requires k < |order| && order[k] in rows && forall i, j :: 0 <= i < j < |order| ==> order[i] != order[j]
    ensures Total(rows - {order[k]}, order) == Total(rows, order) - rows[order[k]].bytes
  {
    var front := order[..|order| - 1];
    if k == |order| - 1 {
      TotalOutside(rows, front, order[k]);
    } else {
      TotalWithout(rows, front, k);
    }
  }

  lemma {:induction false} TotalOutside(rows: Rows, order: seq<Part>, part: Part)
    requires part !in order
    ensures Total(rows - {part}, order) == Total(rows, order)
  {
    if order != [] { TotalOutside(rows, order[..|order| - 1], part); }
  }

  /** What pruning may have removed, least recently used parts first and no more than needed. */
  ghost predicate Pruned(before: Rows, after: Rows, order: seq<Part>, removed: seq<Part>, maxBytes: nat,
      keep: set<Part>, recent: real) {
    && (forall p :: p in before <==> p in after || p in removed)
    && (forall p :: p in after ==> p in before && p !in removed && after[p] == before[p])
    && (forall k :: 0 <= k < |removed| ==> removed[k] in before && removed[k] !in keep && before[removed[k]].lastAccess < recent)
    && (Total(after, order) <= maxBytes || forall p :: p in after ==> p in keep || after[p].lastAccess >= recent)
    && (forall k, p :: 0 <= k < |removed| && removed[k] in before && p in after && p !in keep ==>
          before[removed[k]].lastAccess <= after[p].lastAccess)
    && (removed != [] && removed[|removed| - 1] in before ==>
          Total(after, order) + before[removed[|removed| - 1]].bytes > maxBytes)
  }

  ghost predicate IsPruned(before: Rows, after: Rows, maxBytes: nat, keep: set<Part>, recent: real) {
    exists order, removed :: IsOrder(before, order) && Pruned(before, after, order, removed, maxBytes, keep, recent)
  }

  /** The first `i` rows are dealt with. */
  ghost predicate Pruning(rows: Rows, order: seq<Part>, i: nat, after: Rows, removed: seq<Part>, maxBytes: nat,
      keep: set<Part>, recent: real) {
    && i <= |order|
    && (forall p :: p in rows <==> p in after || p in removed)
    && (forall p :: p in after ==> p in rows && p !in removed && after[p] == rows[p])
    && (forall k :: 0 <= k < |removed| ==>
          removed[k] in order[..i] && removed[k] in rows && removed[k] !in keep && rows[removed[k]].lastAccess < recent)
    && (forall j :: 0 <= j < i && order[j] in after ==> order[j] in keep)
    && (removed != [] ==>
          removed[|removed| - 1] in rows && Total(after, order) + rows[removed[|removed| - 1]].bytes > maxBytes)
  }

  /** The row at `i` is still there. */
  lemma PruneHere(rows: Rows, order: seq<Part>, i: nat, after: Rows, removed: seq<Part>, maxBytes: nat,
      keep: set<Part>, recent: real)
    requires IsOrder(rows, order) && i < |order| && Pruning(rows, order, i, after, removed, maxBytes, keep, recent)
    ensures order[i] in after && after[order[i]] == rows[order[i]] && order[i] !in removed
    ensures Total(after - {order[i]}, order) == Total(after, order) - after[order[i]].bytes
  {
    forall a, b | 0 <= a < b < |order| ensures order[a] != order[b] { assert InOrder(rows, order, a, b); }
    assert order[i] in order && order[i] !in order[..i];
    TotalWithout(after, order, i);
  }

  lemma PruneKeeps(rows: Rows, order: seq<Part>, i: nat, after: Rows, removed: seq<Part>, maxBytes: nat,
      keep: set<Part>, recent: real)
    requires i < |order| && Pruning(rows, order, i, after, removed, maxBytes, keep, recent) && order[i] in keep
    ensures Pruning(rows, order, i + 1, after, removed, maxBytes, keep, recent)
  {
    assert order[..i + 1] == order[..i] + [order[i]];
  }

  lemma PruneRemoves(rows: Rows, order: seq<Part>, i: nat, after: Rows, removed: seq<Part>, maxBytes: nat,
      keep: set<Part>, recent: real)
    requires i < |order| && Pruning(rows, order, i, after, removed, maxBytes, keep, recent) && order[i] in after
    requires order[i] !in keep && after[order[i]].lastAccess < recent && Total(after, order) > maxBytes
    requires Total(after - {order[i]}, order) == Total(after, order) - after[order[i]].bytes
    ensures Pruning(rows, order, i + 1, after - {order[i]}, removed + [order[i]], maxBytes, keep, recent)
  {
    assert order[..i + 1] == order[..i] + [order[i]];
  }

  lemma PruneDone(rows: Rows, order: seq<Part>, i: nat, after: Rows, removed: seq<Part>, maxBytes: nat,
      keep: set<Part>, recent: real)
    requires IsOrder(rows, order) && Pruning(rows, order, i, after, removed, maxBytes, keep, recent)
    requires i == |order| || Total(after, order) <= maxBytes || (order[i] in rows && rows[order[i]].lastAccess >= recent)
    ensures Pruned(rows, after, order, removed, maxBytes, keep, recent)
  {
    forall p | p in after && p !in keep
      ensures Total(after, order) <= maxBytes || after[p].lastAccess >= recent
      ensures forall k :: 0 <= k < |removed| ==> rows[removed[k]].lastAccess <= after[p].lastAccess
    {
      var j :| 0 <= j < |order| && order[j] == p;
      assert i <= j;
      assert i < j ==> InOrder(rows, order, i, j);
      forall k | 0 <= k < |removed|
        ensures rows[removed[k]].lastAccess <= after[p].lastAccess
      {
        var h :| 0 <= h < i && order[h] == removed[k];
        assert InOrder(rows, order, h, j);
      }
    }
  }

  /** `prune_parts` */
  method Prune(rows: Rows, order: seq<Part>, maxBytes: nat, keep: set<Part>, recent: real)
    returns (after: Rows, removed: seq<Part>)
    requires IsOrder(rows, order)
    ensures Pruned(rows, after, order, removed, maxBytes, keep, recent)
    ensures forall p :: p in rows && p in keep ==> p in after
  {
    var total := Total(rows, order);
    after, removed := rows, [];
    for i := 0 to |order|
      invariant total == Total(after, order)
      invariant Pruning(rows, order, i, after, removed, maxBytes, keep, recent)
    {
      var part := order[i];
      PruneHere(rows, order, i, after, removed, maxBytes, keep, recent);
      if total <= maxBytes || after[part].lastAccess >= recent {
        PruneDone(rows, order, i, after, removed, maxBytes, keep, recent);
        return;
      }
      if part in keep {
        PruneKeeps(rows, order, i, after, removed, maxBytes, keep, recent);
        continue;
      }
      PruneRemoves(rows, order, i, after, removed, maxBytes, keep, recent);
      total := total - after[part].bytes;
      after := after - {part};
      removed := removed + [part];
    }
    PruneDone(rows, order, |order|, after, removed, maxBytes, keep, recent);
  }

  // ------------------------------------------------------------------------- the planning loop

  /** The part that begins at `cursor`, as the loop of `plan` finds it. */
  method NextInWindow(c: Config, outline: Outline, ready: map<nat, nat>, gone: set<nat>, queue: seq<Part>,
      cursor: nat, opening: bool)
    returns (last: nat)
    requires cursor < |outline| && Inside(|outline|, ready, queue)
    ensures last == LastOf(c, outline, ready, gone, queue, cursor, opening) && cursor <= last < |outline|
  {
    QueuedInside(queue, cursor, |outline|);
    var queued := Queued(queue, cursor);
    if cursor in ready && cursor !in gone {
      last := ready[cursor];
    } else if queued.Some? {
      last := queued.value.last;
    } else {
      last := NewLast(c, outline, ready, cursor, opening);
    }
  }

  /** `lost` are ready parts without a file, among them those that begin where a planned part does. */
  ghost predicate Forgets(track: Track, ready: map<nat, nat>, gone: set<nat>, parts: seq<Part>, lost: set<Part>)
    requires gone <= ready.Keys
  {
    && (forall p :: p in lost ==> p.first in gone && p == Part(track, p.first, ready[p.first]))
    && (forall k :: 0 <= k < |parts| && parts[k].first in gone ==> Part(track, parts[k].first, ready[parts[k].first]) in lost)
  }

  lemma ForgetsMore(track: Track, ready: map<nat, nat>, gone: set<nat>, parts: seq<Part>, lost: set<Part>, part: Part)
    requires gone <= ready.Keys && Forgets(track, ready, gone, parts, lost)
    ensures Forgets(track, ready, gone, parts + [part],
                    if part.first in gone then lost + {Part(track, part.first, ready[part.first])} else lost)
  {
  }

  /** The loop of `plan`. `lost` are the ready parts it met whose files are gone. */
  method PlanWindow(c: Config, outline: Outline, track: Track, ready: map<nat, nat>, gone: set<nat>,
      queue: seq<Part>, from: nat)
    returns (parts: seq<Part>, lost: set<Part>)
    requires from <= |outline| && Inside(|outline|, ready, queue) && gone <= ready.Keys
    ensures parts == Window(c, outline, track, ready, gone, queue, from, 0)
    ensures Forgets(track, ready, gone, parts, lost)
  {
    parts, lost := [], {};
    var cursor: nat := from;
    ghost var whole := Window(c, outline, track, ready, gone, queue, from, 0);
    while |parts| < c.lookahead && cursor < |outline|
      invariant cursor <= |outline| && |parts| <= c.lookahead
      invariant parts + Window(c, outline, track, ready, gone, queue, cursor, |parts|) == whole
      invariant Forgets(track, ready, gone, parts, lost)
      decreases c.lookahead - |parts|
    {
      var last := NextInWindow(c, outline, ready, gone, queue, cursor, |parts| == 0);
      ForgetsMore(track, ready, gone, parts, lost, Part(track, cursor, last));
      if cursor in gone {
        lost := lost + {Part(track, cursor, ready[cursor])};
      }
      OnePart(parts, Part(track, cursor, last), Window(c, outline, track, ready, gone, queue, last + 1, |parts| + 1));
      parts := parts + [Part(track, cursor, last)];
      cursor := last + 1;
    }
  }

  lemma OnePart(parts: seq<Part>, part: Part, rest: seq<Part>)
    ensures parts + ([part] + rest) == parts + [part] + rest
  {
  }

  // ------------------------------------------------------------------------ the renderer's state

  datatype Job = Job(track: Track, parts: seq<Part>)
  datatype Plan = NoDocument | BadBlock | Planned(parts: seq<Part>)

  /** The parts the worker has still to do, in the order it takes them. */
  function Pending(parts: seq<Part>, rows: set<Part>, errors: set<Part>): (pending: seq<Part>)
    ensures |pending| <= |parts|
    ensures forall p :: p in pending <==> p in parts && p !in rows && p !in errors
  {
    if parts == [] then []
    else (if parts[0] in rows || parts[0] in errors then [] else [parts[0]]) + Pending(parts[1..], rows, errors)
  }

  /** The first part that is neither stored nor failed, or there is none. */
  ghost predicate FirstMissing(parts: seq<Part>, rows: set<Part>, errors: set<Part>, next: Option<Part>) {
    match next
    case None => forall k :: 0 <= k < |parts| ==> parts[k] in rows || parts[k] in errors
    case Some(part) =>
      exists k :: 0 <= k < |parts| && parts[k] == part && part !in rows && part !in errors &&
                  forall j :: 0 <= j < k ==> parts[j] in rows || parts[j] in errors
  }

  lemma {:induction false} NonePending(parts: seq<Part>, rows: set<Part>, errors: set<Part>)
    requires forall k :: 0 <= k < |parts| ==> parts[k] in rows || parts[k] in errors
    ensures Pending(parts, rows, errors) == []
  {
    if parts != [] { NonePending(parts[1..], rows, errors); }
  }

  lemma {:induction false} PendingShrinks(parts: seq<Part>, rows: set<Part>, errors: set<Part>, more: set<Part>,
      failed: set<Part>)
    requires forall p :: p in parts && (p in rows || p in errors) ==> p in more || p in failed
    ensures |Pending(parts, more, failed)| <= |Pending(parts, rows, errors)|
    ensures (exists p :: p in Pending(parts, rows, errors) && (p in more || p in failed)) ==>
              |Pending(parts, more, failed)| < |Pending(parts, rows, errors)|
  {
    if parts != [] {
      PendingShrinks(parts[1..], rows, errors, more, failed);
      assert parts[0] in parts;
    }
  }

  ghost predicate Sound(documents: map<string, Outline>, rows: set<Part>, job: Option<Job>) {
    && (forall p :: p in rows ==> Fits(documents, p))
    && (job.Some? ==> forall p :: p in job.value.parts ==> p.track == job.value.track && Fits(documents, p))
  }

  predicate Fits(documents: map<string, Outline>, part: Part) {
    && part.track.document in documents
    && part.first <= part.last < |documents[part.track.document]|
  }

  lemma QueueInside(documents: map<string, Outline>, rows: set<Part>, job: Option<Job>, track: Track)
    requires Sound(documents, rows, job) && track.document in documents
    ensures Inside(|documents[track.document]|, ReadyParts(rows, track, |documents[track.document]|), QueueOf(job, track))
  {
    var n := |documents[track.document]|;
    var ready := ReadyParts(rows, track, n);
    forall first | first in ready
      ensures first <= ready[first] < n
    {
      assert Fits(documents, Part(track, first, ready[first]));
    }
  }

  function QueueOf(job: Option<Job>, track: Track): seq<Part> {
    if job.Some? && job.value.track == track then job.value.parts else []
  }

  function GoneFrom(ready: map<nat, nat>, files: set<Part>, track: Track): set<nat> {
    set first | first in ready && Part(track, first, ready[first]) !in files
  }

  /** The longest ready part at the start of a planned part was forgotten if its file is gone. */
  ghost predicate NotLost(before: set<Part>, rows: set<Part>, files: set<Part>, part: Part) {
    forall longest: nat {:trigger Part(part.track, part.first, longest)} ::
      var found := Part(part.track, part.first, longest);
      found in before && found in rows && (forall l: nat :: l > longest ==> Part(part.track, part.first, l) !in before) ==> found in files
  }

  lemma LostIsForgotten(rows: set<Part>, files: set<Part>, lost: set<Part>, track: Track, n: nat, part: Part)
    requires part.track == track && part.first < n && forall p :: p in rows && p.track == track ==> p.last < n
    requires var ready := ReadyParts(rows, track, n);
             part.first in GoneFrom(ready, files, track) ==> Part(track, part.first, ready[part.first]) in lost
    ensures NotLost(rows, rows - lost, files, part)
  {
    forall longest: nat | Part(track, part.first, longest) in rows - lost &&
                          forall l: nat :: l > longest ==> Part(track, part.first, l) !in rows
      ensures Part(track, part.first, longest) in files
    {
    }
  }

  /** The oldest of some recorded parts. */
  method Oldest(rows: Rows, left: set<Part>) returns (oldest: Part)
    requires left != {} && forall p :: p in left ==> p in rows
    ensures oldest in left && forall p :: p in left ==> rows[oldest].lastAccess <= rows[p].lastAccess
  {
    oldest :| oldest in left;
    var more := left - {oldest};
    while more != {}
      invariant oldest in left && more <= left
      invariant forall p :: p in left && p !in more ==> rows[oldest].lastAccess <= rows[p].lastAccess
      decreases |more|
    {
      var p :| p in more;
      if rows[p].lastAccess < rows[oldest].lastAccess { oldest := p; }
      more := more - {p};
    }
  }

  /** ORDER BY last_access */
  method ByLastAccess(rows: Rows) returns (order: seq<Part>)
    ensures IsOrder(rows, order)
  {
    order := [];
    var left := rows.Keys;
    while left != {}
      invariant left <= rows.Keys && forall p :: p in order <==> p in rows && p !in left
      invariant forall i, p :: 0 <= i < |order| && p in left ==> rows[order[i]].lastAccess <= rows[p].lastAccess
      invariant forall i, j :: 0 <= i < j < |order| ==>
                  order[i] != order[j] && rows[order[i]].lastAccess <= rows[order[j]].lastAccess
      decreases |left|
    {
      var oldest := Oldest(rows, left);
      assert forall i :: 0 <= i < |order| ==> order[i] in rows;
      order := order + [oldest];
      left := left - {oldest};
    }
  }

  /** What happens to a renderer while a listener stays with one request. */
  datatype Event =
    | Rendered(bytes: nat, now: real)        // the worker saves the next part
    | Failed                                 // the worker fails at it
    | Played(part: Part, now: real)          // a part is played
    | Polled(from: int)                      // the player asks for the status

  ghost predicate PlannedFrom(c: Config, outline: Outline, track: Track, before: set<Part>, queue: seq<Part>,
      from: nat, parts: seq<Part>) {
    var ready := ReadyParts(before, track, |outline|);
    from < |outline| && Inside(|outline|, ready, queue) && parts == Window(c, outline, track, ready, {}, queue, from, 0)
  }

  class Renderer {
    const config: Config
    const cacheMaxBytes: nat
    var documents: map<string, Outline>
    var rows: Rows
    var files: set<Part>
    var job: Option<Job>
    var errors: set<Part>

    ghost predicate Valid()
      reads this
    {
      config.Valid() && Sound(documents, rows.Keys, job)
    }

    /** Every recorded part is on disk. */
    ghost predicate AllPresent()
      reads this
    {
      forall p :: p in rows ==> p in files
    }

    ghost function PlanNow(track: Track, from: nat): seq<Part>
      reads this
      requires track.document in documents
    {
      var outline := documents[track.document];
      Window(config, outline, track, ReadyParts(rows.Keys, track, |outline|), {}, QueueOf(job, track), from, 0)
    }

    method PlanParts(track: Track, from: int) returns (plan: Plan)
      requires Valid()
      modifies this`rows
      ensures Valid()
      ensures plan.NoDocument? <==> track.document !in documents
      ensures plan.BadBlock? <==> track.document in documents && !(0 <= from < |documents[track.document]|)
      ensures plan.Planned? ==> IsWindow(config, plan.parts, track, from, |documents[track.document]|)
      ensures plan.Planned? && old(AllPresent()) ==> plan.parts == old(PlanNow(track, from))
      ensures old(AllPresent()) ==> rows == old(rows)
      ensures forall p :: p in rows ==> p in old(rows) && rows[p] == old(rows[p])
      ensures forall p :: p in old(rows) && p !in rows ==> p !in files && plan.Planned? && p.track == track
      ensures plan.Planned? ==> forall k :: 0 <= k < |plan.parts| ==> NotLost(old(rows.Keys), rows.Keys, files, plan.parts[k])
    {
      if track.document !in documents { return NoDocument; }
      var outline := documents[track.document];
      if !(0 <= from < |outline|) { return BadBlock; }
      var ready, queue := ReadyParts(rows.Keys, track, |outline|), QueueOf(job, track);
      var gone := GoneFrom(ready, files, track);
      QueueInside(documents, rows.Keys, job, track);
      WindowShape(config, outline, track, ready, gone, queue, from, 0);
      assert AllPresent() ==> gone == {};
      var parts, lost := PlanWindow(config, outline, track, ready, gone, queue, from);
      forall k | 0 <= k < |parts|
        ensures NotLost(rows.Keys, rows.Keys - lost, files, parts[k])
      {
        LostIsForgotten(rows.Keys, files, lost, track, |outline|, parts[k]);
      }
      rows := rows - lost;
      assert rows.Keys == old(rows.Keys) - lost;
      plan := Planned(parts);
    }

    /** `request`: the planned window becomes the job. */
    method Request(track: Track, from: int) returns (plan: Plan)
      requires Valid()
      modifies this`rows, this`job, this`errors
      ensures Valid()
      ensures plan.NoDocument? <==> track.document !in documents
      ensures plan.BadBlock? <==> track.document in documents && !(0 <= from < |documents[track.document]|)
      ensures plan.Planned? ==> IsWindow(config, plan.parts, track, from, |documents[track.document]|)
      ensures plan.Planned? && old(AllPresent()) ==> plan.parts == old(PlanNow(track, from)) && rows == old(rows)
      ensures plan.Planned? ==> job == Some(Job(track, plan.parts)) && errors == old(errors) - set p <- plan.parts
      ensures !plan.Planned? ==> job == old(job) && errors == old(errors)
    {
      plan := PlanParts(track, from);
      if plan.Planned? {
        errors := errors - set p <- plan.parts;
        job := Some(Job(track, plan.parts));
      }
    }

    /** `_next_part`: the first part of the job that is neither stored nor failed. */
    method NextPart() returns (next: Option<Part>)
      ensures job == None ==> next == None
      ensures job.Some? ==> FirstMissing(job.value.parts, rows.Keys, errors, next)
      ensures job.Some? ==> (next.Some? <==> Pending(job.value.parts, rows.Keys, errors) != [])
      ensures job.Some? && next.Some? ==> next.value in Pending(job.value.parts, rows.Keys, errors)
    {
      if job == None { return None; }
      var parts := job.value.parts;
      for k := 0 to |parts|
        invariant forall j :: 0 <= j < k ==> parts[j] in rows || parts[j] in errors
      {
        if parts[k] !in errors && parts[k] !in rows {
          return Some(parts[k]);
        }
      }
      next := None;
      NonePending(parts, rows.Keys, errors);
    }

    /** The end of `_render`: if the part is still wanted it is saved, and the cache is pruned
        around the parts of the job. */
    method SaveRendered(part: Part, bytes: nat, now: real) returns (saved: bool)
      requires Valid() && Fits(documents, part)
      modifies this`rows, this`files
      ensures Valid() && (old(AllPresent()) ==> AllPresent())
      ensures saved <==> job.Some? && part in job.value.parts
      ensures !saved ==> rows == old(rows) && files == old(files)
      ensures saved ==> part in rows
      ensures saved ==> forall p :: p in job.value.parts && p in old(rows) ==> p in rows
      ensures forall p :: p in rows ==> p in old(rows) || p == part
      ensures saved ==> IsPruned(old(rows)[part := Row(bytes, now)], rows, cacheMaxBytes, (set p <- job.value.parts), now - RECENTLY_PLAYED_S)
    {
      saved := job.Some? && part in job.value.parts;
      if saved {
        rows := rows[part := Row(bytes, now)];
        files := files + {part};
        var keep := set p <- job.value.parts;
        var order := ByLastAccess(rows);
        var after, removed := Prune(rows, order, cacheMaxBytes, keep, now - RECENTLY_PLAYED_S);
        assert IsPruned(rows, after, cacheMaxBytes, keep, now - RECENTLY_PLAYED_S);
        rows := after;
        files := files - set p <- removed;
      }
    }

    /** The worker failed at a part. */
    method Fail(part: Part)
      modifies this`errors
      ensures errors == old(errors) + {part}
    {
      errors := errors + {part};
    }

    /** `touch_part` */
    method Touch(part: Part, now: real)
      modifies this`rows
      ensures rows.Keys == old(rows.Keys)
      ensures forall p :: p in rows ==> rows[p] == if p == part then old(rows)[p].(lastAccess := now) else old(rows)[p]
    {
      if part in rows {
        rows := rows[part := rows[part].(lastAccess := now)];
      }
    }

    /** One event while the window `parts` is the job. */
    method Happen(event: Event, ghost before: set<Part>, ghost parts: seq<Part>)
      requires Valid() && AllPresent() && job.Some? && job.value.parts == parts && Later(before, parts, rows.Keys)
      modifies this`rows, this`files, this`errors
      ensures Valid() && AllPresent() && Later(before, parts, rows.Keys)
      ensures |Pending(parts, rows.Keys, errors)| <= old(|Pending(parts, rows.Keys, errors)|)
      ensures event.Rendered? || event.Failed? ==> |Pending(parts, rows.Keys, errors)| <= Less(old(|Pending(parts, rows.Keys, errors)|))
    {
      match event
      case Rendered(bytes, now) =>
        var next := NextPart();
        if next.Some? {
          var saved := SaveRendered(next.value, bytes, now);
        }
        PendingShrinks(parts, old(rows.Keys), errors, rows.Keys, errors);
      case Failed =>
        var next := NextPart();
        if next.Some? { Fail(next.value); }
        PendingShrinks(parts, rows.Keys, old(errors), rows.Keys, errors);
      case Played(part, now) =>
        Touch(part, now);
      case Polled(from) =>
        var plan := PlanParts(job.value.track, from);
    }

    method HappenAll(events: seq<Event>, ghost before: set<Part>, ghost parts: seq<Part>)
      requires Valid() && AllPresent() && job.Some? && job.value.parts == parts && Later(before, parts, rows.Keys)
      modifies this`rows, this`files, this`errors
      ensures Valid() && AllPresent() && Later(before, parts, rows.Keys)
      ensures Work(events) >= |parts| ==> Pending(parts, rows.Keys, errors) == []
    {
      for i := 0 to |events|
        invariant Valid() && AllPresent() && Later(before, parts, rows.Keys)
        invariant Work(events[..i]) + |Pending(parts, rows.Keys, errors)| <= |parts| || |Pending(parts, rows.Keys, errors)| == 0
      {
        assert events[..i + 1][..i] == events[..i];
        Happen(events[i], before, parts);
      }
      assert events[..|events|] == events;
    }

    method Begin(track: Track, from: nat) returns (parts: seq<Part>)
      requires Valid() && AllPresent() && track.document in documents && from < |documents[track.document]|
      modifies this`rows, this`job, this`errors
      ensures Valid() && rows == old(rows) && job == Some(Job(track, parts)) && parts == old(PlanNow(track, from))
      ensures PlannedFrom(config, documents[track.document], track, rows.Keys, old(QueueOf(job, track)), from, parts)
      ensures parts != []
    {
      QueueInside(documents, rows.Keys, job, track);
      var plan := Request(track, from);
      parts := plan.parts;
    }

    /** Planning from a part of the window while it is the job. */
    method Ask(track: Track, skip: nat, ghost before: set<Part>, ghost queue: seq<Part>, ghost from: nat, parts: seq<Part>)
      returns (rest: seq<Part>)
      requires Valid() && AllPresent() && track.document in documents && job == Some(Job(track, parts))
      requires PlannedFrom(config, documents[track.document], track, before, queue, from, parts)
      requires Later(before, parts, rows.Keys) && skip < |parts|
      modifies this`rows
      ensures rows == old(rows)
      ensures parts[skip..] <= rest && (skip == 0 ==> rest == parts)
    {
      assert parts[skip] in parts;
      var plan := PlanParts(track, parts[skip].first);
      rest := plan.parts;
      WindowIsStable(config, documents[track.document], track, before, queue, from, rows.Keys, skip);
    }

    /** Planning from the first part of the window, and from another one. */
    method AskTwice(track: Track, skip: nat, ghost before: set<Part>, ghost queue: seq<Part>, ghost from: nat,
        parts: seq<Part>)
      returns (again: seq<Part>, rest: seq<Part>)
      requires Valid() && AllPresent() && track.document in documents && job == Some(Job(track, parts)) && parts != []
      requires PlannedFrom(config, documents[track.document], track, before, queue, from, parts)
      requires Later(before, parts, rows.Keys)
      modifies this`rows
      ensures rows == old(rows) && again == parts && (skip < |parts| ==> parts[skip..] <= rest)
    {
      again := Ask(track, 0, before, queue, from, parts);
      rest := [];
      if skip < |parts| {
        rest := Ask(track, skip, before, queue, from, parts);
      }
    }

    /** A whole run from a request on: whatever happens, the window stays the same, planning from any
        of its parts begins with the rest of it, and the worker needs no more steps than it has parts. */
    method Listen(track: Track, from: nat, events: seq<Event>, skip: nat)
      returns (parts: seq<Part>, again: seq<Part>, rest: seq<Part>)
      requires Valid() && AllPresent() && track.document in documents && from < |documents[track.document]|
      modifies this`rows, this`files, this`errors, this`job
      ensures parts == old(PlanNow(track, from)) && again == parts
      ensures skip < |parts| ==> parts[skip..] <= rest
      ensures Work(events) >= |parts| ==> Pending(parts, rows.Keys, errors) == []
      ensures forall p :: p in parts && p in old(rows) ==> p in rows
    {
      ghost var before, queue := rows.Keys, QueueOf(job, track);
      parts := Begin(track, from);
      HappenAll(events, before, parts);
      again, rest := AskTwice(track, skip, before, queue, from, parts);
    }
  }

  function Less(n: nat): nat { if n > 0 then n - 1 else 0 }

  /** How many steps of the worker are among the events. */
  function Work(events: seq<Event>): nat {
    if events == [] then 0
    else Work(events[..|events| - 1]) + if events[|events| - 1].Rendered? || events[|events| - 1].Failed? then 1 else 0
  }
}
