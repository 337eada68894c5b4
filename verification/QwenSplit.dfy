/** `_split_text` of the Qwen3 provider: sentences, and then segments of a bounded amount of speech,
    so that the token budget of a segment always covers its estimate. */
module QwenSplit {

  import opened Text

  const WIDE_TENTHS: nat := 32                 // a wide character is 3.2 units
  const NARROW_TENTHS: nat := 10
  const TOKENS_PER_UNIT := 2.25
  const TOKEN_OVERHEAD := 48
  const TOKEN_FLOOR := 192
  const EPSILON := 0.000000001

  /** Character classes; `wide` and `alnum` stand for the Unicode tables. */
  datatype Tables = Tables(spaces: set<char>, cjk: set<char>, latin: set<char>, closers: set<char>,
                           wide: char -> bool, alnum: char -> bool) {
    ghost predicate Lawful() {
      && ' ' in spaces
      && closers !! spaces && closers !! cjk && closers !! latin && spaces !! cjk && spaces !! latin
    }
    predicate Ending(c: char) { c in cjk || c in latin }
  }

  datatype Settings = Settings(maxUnits: real, ceiling: int) {
    /** `_validate_generation_settings` */
    ghost predicate Valid() { maxUnits > 0.0 && ceiling >= TOKEN_FLOOR }
  }

  /** The source's tables, around any classification of width and letters. */
  function SourceTables(wide: char -> bool, alnum: char -> bool): Tables {
    Tables(WHITESPACE, {'\U{3002}', '\U{FF01}', '\U{FF1F}'}, {'.', '!', '?'},
           {'\U{300D}', '\U{300F}', '\U{201D}', '\U{2019}', '\U{FF09}', ')', '\U{300B}', '\U{3009}', '\U{3011}', ']',
            '\U{3015}', '\U{3017}', '\U{3019}', '\U{301B}', '\U{301E}', '\U{301F}', '\"', '\''},
           wide, alnum)
  }

  /** Where the whitespace characters are: a few ranges without any of the source's marks. */
  predicate BlankRange(c: char) {
    || c <= ' ' || '\U{85}' <= c <= '\U{A0}' || c == '\U{1680}' || '\U{2000}' <= c <= '\U{200A}'
    || '\U{2028}' <= c <= '\U{205F}' || c == '\U{3000}'
  }

  lemma SpacesAreBlank()
    ensures forall c <- WHITESPACE :: BlankRange(c)
  {
  }

  lemma SourceTablesAreLawful(wide: char -> bool, alnum: char -> bool)
    ensures SourceTables(wide, alnum).Lawful()
  {
    var tb := SourceTables(wide, alnum);
    SpacesAreBlank();
    forall c | c in tb.closers ensures !BlankRange(c) && c !in tb.cjk && c !in tb.latin {}
    forall c | tb.Ending(c) ensures !BlankRange(c) {}
  }

  // ------------------------------------------------------------------------------- units, tokens

  function Width(tb: Tables, c: char): nat { if tb.wide(c) then WIDE_TENTHS else NARROW_TENTHS }

  function Tenths(tb: Tables, t: string): nat {
    if t == [] then 0 else Tenths(tb, t[..|t| - 1]) + Width(tb, t[|t| - 1])
  }

  /** `_text_units`, in exact arithmetic. */
  function Units(tb: Tables, t: string): real { Tenths(tb, t) as real / 10.0 }

  function Ceil(x: real): int { -(-x).Floor }

  /** `_effective_segment_unit_limit` */
  function UnitLimit(s: Settings): real {
    MinReal(s.maxUnits, (s.ceiling - TOKEN_OVERHEAD) as real / TOKENS_PER_UNIT)
  }

  function Estimate(tb: Tables, t: string): int { Ceil(TOKENS_PER_UNIT * Units(tb, t)) + TOKEN_OVERHEAD }

  /** `_max_new_tokens` */
  function MaxNewTokens(tb: Tables, s: Settings, t: string): int {
    var wanted := if Estimate(tb, t) < TOKEN_FLOOR then TOKEN_FLOOR else Estimate(tb, t);
    if wanted < s.ceiling then wanted else s.ceiling
  }

  lemma {:induction false} TenthsConcat(tb: Tables, a: string, b: string)
    ensures Tenths(tb, a + b) == Tenths(tb, a) + Tenths(tb, b)
  {
    if b == [] {
      assert a + b == a;
    } else {
      assert (a + b)[..|a + b| - 1] == a + b[..|b| - 1];
      TenthsConcat(tb, a, b[..|b| - 1]);
    }
  }

  lemma PartHasFewer(tb: Tables, t: string, lo: nat, hi: nat)
    requires lo <= hi <= |t|
    ensures Tenths(tb, t[lo..hi]) <= Tenths(tb, t)
  {
    TenthsConcat(tb, t[..lo], t[lo..]);
    TenthsConcat(tb, t[lo..hi], t[hi..]);
    assert t[..lo] + t[lo..] == t && t[lo..hi] + t[hi..] == t[lo..];
  }

  /** A budget in whole tokens: a text of at most EPSILON over the limit still fits under the
      ceiling, because its units are whole tenths. */
  lemma NeverClamped(tb: Tables, s: Settings, t: string)
    requires s.Valid() && (Units(tb, t) <= UnitLimit(s) + EPSILON || |t| == 1)
    ensures Estimate(tb, t) <= s.ceiling && MaxNewTokens(tb, s, t) >= Estimate(tb, t)
  {
    var x := Tenths(tb, t);
    if |t| == 1 {
      assert Tenths(tb, t[..0]) == 0;
    } else {
      assert 9 * x <= 40 * (s.ceiling - TOKEN_OVERHEAD);
    }
  }

  // ---------------------------------------------------------------------------------- sentences

  /** A sentence ends at `e`: a mark, then all the closers that follow it, and after a Latin mark
      whitespace. */
  predicate SentenceEnd(tb: Tables, t: string, mark: nat, e: nat)
    requires mark < e <= |t|
  {
    && tb.Ending(t[mark])
    && (forall k :: mark < k < e ==> t[k] in tb.closers)
    && (e < |t| ==> t[e] !in tb.closers)
    && (t[mark] in tb.cjk || (e < |t| && t[e] in tb.spaces))
  }

  ghost predicate IsCut(tb: Tables, t: string, e: nat) {
    e <= |t| && exists mark :: 0 <= mark < e && SentenceEnd(tb, t, mark, e)
  }

  predicate HasAlnum(tb: Tables, t: string) { exists k :: 0 <= k < |t| && tb.alnum(t[k]) }

  /** A part without a letter or digit is glued to the part before it. */
  function Added(tb: Tables, parts: seq<string>, part: string): seq<string> {
    if parts != [] && !HasAlnum(tb, part) then parts[..|parts| - 1] + [parts[|parts| - 1] + part]
    else parts + [part]
  }

  /** `append_part` */
  function Appended(tb: Tables, parts: seq<string>, part: string): seq<string> {
    var normalized := Strip(tb.spaces, part);
    if normalized == [] then parts else Added(tb, parts, normalized)
  }

  ghost function Cuts(tb: Tables, t: string): iset<nat> { iset e: nat | IsCut(tb, t, e) }

  /** The text cut at the given places, from `e` on; the open part begins at `start`, and the next one
      after the whitespace. */
  ghost function PartsFrom(tb: Tables, t: string, cuts: iset<nat>, start: nat, e: nat): seq<string>
    requires start <= |t| && start <= e
    decreases |t| + 1 - e
  {
    if e > |t| then [t[start..]]
    else if start < e && e in cuts then
      var next := SkipSpaces(tb.spaces, t, e);
      [t[start..e]] + PartsFrom(tb, t, cuts, next, next + 1)
    else PartsFrom(tb, t, cuts, start, e + 1)
  }

  function AppendAll(tb: Tables, parts: seq<string>, more: seq<string>): seq<string>
    decreases |more|
  {
    if more == [] then parts else AppendAll(tb, Appended(tb, parts, more[0]), more[1..])
  }

  /** The sentences of a text: cut wherever one ends, then trimmed and glued. */
  ghost function Sentences(tb: Tables, t: string): seq<string> {
    AppendAll(tb, [], PartsFrom(tb, t, Cuts(tb, t), 0, 1))
  }

  function CloserEnd(tb: Tables, t: string, i: nat): (e: nat)
    requires i <= |t|
    ensures i <= e <= |t| && (forall k :: i <= k < e ==> t[k] in tb.closers) && (e < |t| ==> t[e] !in tb.closers)
    decreases |t| - i
  {
    if i < |t| && t[i] in tb.closers then CloserEnd(tb, t, i + 1) else i
  }

  lemma {:induction false} NoCutsUpTo(tb: Tables, t: string, cuts: iset<nat>, start: nat, from: nat, upTo: nat)
    requires start <= |t| && start <= from <= upTo <= |t| + 1
    requires forall e :: from <= e < upTo ==> e !in cuts
    ensures PartsFrom(tb, t, cuts, start, from) == PartsFrom(tb, t, cuts, start, upTo)
    decreases upTo - from
  {
    if from < upTo { NoCutsUpTo(tb, t, cuts, start, from + 1, upTo); }
  }

  /** A closer at `index` does not continue a sentence end that was already looked at. */
  ghost predicate Settled(tb: Tables, t: string, index: nat) {
    index < |t| && t[index] in tb.closers ==>
      forall mark :: 0 <= mark < index && tb.Ending(t[mark]) ==> exists k :: mark < k < index && t[k] !in tb.closers
  }

  lemma NoMarkNoCut(tb: Tables, t: string, index: nat)
    requires tb.Lawful() && index < |t| && !tb.Ending(t[index]) && Settled(tb, t, index)
    ensures !IsCut(tb, t, index + 1) && Settled(tb, t, index + 1)
  {
    if index + 1 < |t| {
      forall mark | 0 <= mark < index + 1 && tb.Ending(t[mark])
        ensures exists k :: mark < k < index + 1 && t[k] !in tb.closers
      {
        assert mark < index;
        if t[index] !in tb.closers { assert mark < index < index + 1; }
      }
    }
  }

  lemma AfterMark(tb: Tables, t: string, index: nat, end: nat)
    requires tb.Lawful() && index < |t| && tb.Ending(t[index]) && end == CloserEnd(tb, t, index + 1)
    ensures forall e :: index < e < end ==> !IsCut(tb, t, e)
    ensures IsCut(tb, t, end) <==> (t[index] in tb.cjk || (end < |t| && t[end] in tb.spaces))
    ensures Settled(tb, t, end) && Settled(tb, t, SkipSpaces(tb.spaces, t, end))
  {
    assert SentenceEnd(tb, t, index, end) <==> (t[index] in tb.cjk || (end < |t| && t[end] in tb.spaces));
    if mark :| 0 <= mark < end && SentenceEnd(tb, t, mark, end) {
      assert mark == index;
    }
    var next := SkipSpaces(tb.spaces, t, end);
    SkippedSpaces(tb.spaces, t, end);
    if end < next {
      assert t[next - 1] in tb.spaces;
      forall mark | 0 <= mark < next && tb.Ending(t[mark])
        ensures exists k :: mark < k < next && t[k] !in tb.closers
      {
        assert mark < next - 1 < next;
      }
    }
  }

  /** The loop at a mark: nothing ends before the closers do. */
  lemma MarkStep(tb: Tables, t: string, start: nat, index: nat, end: nat)
    requires tb.Lawful() && start <= index < |t| && tb.Ending(t[index]) && end == CloserEnd(tb, t, index + 1)
    ensures PartsFrom(tb, t, Cuts(tb, t), start, index + 1) ==
            if t[index] in tb.cjk || (end < |t| && t[end] in tb.spaces) then
              var next := SkipSpaces(tb.spaces, t, end);
              [t[start..end]] + PartsFrom(tb, t, Cuts(tb, t), next, next + 1)
            else PartsFrom(tb, t, Cuts(tb, t), start, end + 1)
  {
    AfterMark(tb, t, index, end);
    NoCutsUpTo(tb, t, Cuts(tb, t), start, index + 1, end);
  }

  lemma MarkSettles(tb: Tables, t: string, index: nat, end: nat)
    requires tb.Lawful() && index < |t| && tb.Ending(t[index]) && end == CloserEnd(tb, t, index + 1)
    ensures Settled(tb, t, end) && Settled(tb, t, SkipSpaces(tb.spaces, t, end))
  {
    AfterMark(tb, t, index, end);
  }

  /** What is left to split after a mark, with the parts before it. */
  ghost predicate SameParts(tb: Tables, t: string, parts: seq<string>, start: nat, index: nat, parts': seq<string>,
      start': nat, index': nat)
    requires start <= |t| && start <= index + 1 && start' <= |t| && start' <= index' + 1
  {
    AppendAll(tb, parts', PartsFrom(tb, t, Cuts(tb, t), start', index' + 1)) == AppendAll(tb, parts, PartsFrom(tb, t, Cuts(tb, t), start, index + 1))
  }

  lemma PartEnds(tb: Tables, t: string, start: nat, index: nat, end: nat, next: nat, parts: seq<string>)
    requires tb.Lawful() && start <= index < |t| && tb.Ending(t[index]) && end == CloserEnd(tb, t, index + 1)
    requires (t[index] in tb.cjk || (end < |t| && t[end] in tb.spaces)) && next == SkipSpaces(tb.spaces, t, end)
    ensures SameParts(tb, t, parts, start, index, Appended(tb, parts, t[start..end]), next, next)
  {
    MarkStep(tb, t, start, index, end);
  }

  lemma PartGoesOn(tb: Tables, t: string, start: nat, index: nat, end: nat, parts: seq<string>)
    requires tb.Lawful() && start <= index < |t| && tb.Ending(t[index]) && end == CloserEnd(tb, t, index + 1)
    requires !(t[index] in tb.cjk || (end < |t| && t[end] in tb.spaces))
    ensures SameParts(tb, t, parts, start, index, parts, start, end)
  {
    MarkStep(tb, t, start, index, end);
  }

  /** The body of the loop at a mark. */
  method AtMark(tb: Tables, t: string, start: nat, index: nat, parts: seq<string>)
    returns (parts': seq<string>, start': nat, index': nat)
    requires tb.Lawful() && start <= index < |t| && tb.Ending(t[index])
    ensures start' <= index' <= |t| && index < index' && Settled(tb, t, index')
    ensures SameParts(tb, t, parts, start, index, parts', start', index')
  {
    var end := CloserEnd(tb, t, index + 1);
    MarkSettles(tb, t, index, end);
    if t[index] in tb.cjk || (end < |t| && t[end] in tb.spaces) {
      start' := SkipSpaces(tb.spaces, t, end);
      PartEnds(tb, t, start, index, end, start', parts);
      parts', index' := Appended(tb, parts, t[start..end]), start';
    } else {
      PartGoesOn(tb, t, start, index, end, parts);
      parts', start', index' := parts, start, end;
    }
  }

  /** `_sentence_parts` */
  method SentenceParts(tb: Tables, t: string) returns (parts: seq<string>)
    requires tb.Lawful()
    ensures parts == Sentences(tb, t)
  {
    parts := [];
    var start: nat, index: nat := 0, 0;
    while index < |t|
      invariant start <= index <= |t|
      invariant Settled(tb, t, index)
      invariant AppendAll(tb, parts, PartsFrom(tb, t, Cuts(tb, t), start, index + 1)) == Sentences(tb, t)
    {
      if !tb.Ending(t[index]) {
        NoMarkNoCut(tb, t, index);
        index := index + 1;
      } else {
        parts, start, index := AtMark(tb, t, start, index, parts);
      }
    }
    assert [t[start..]] + [] == [t[start..]];
    parts := Appended(tb, parts, t[start..]);
  }

  /** Begins and ends with something other than whitespace. */
  ghost predicate Trimmed(tb: Tables, t: string) {
    t != [] && t[0] !in tb.spaces && t[|t| - 1] !in tb.spaces
  }

  /** Only the first part may lack letters and digits. */
  ghost predicate Tidy(tb: Tables, parts: seq<string>) {
    forall k :: 0 <= k < |parts| ==> Trimmed(tb, parts[k]) && (k > 0 ==> HasAlnum(tb, parts[k]))
  }

  /** Everything but the whitespace, in order. */
  ghost function Kept(tb: Tables, pieces: seq<string>): string { NonSpace(tb.spaces, Joined(pieces)) }

  lemma KeptConcat(tb: Tables, a: seq<string>, b: seq<string>)
    ensures Kept(tb, a + b) == Kept(tb, a) + Kept(tb, b)
  {
    JoinedConcat(a, b);
    NonSpaceConcat(tb.spaces, Joined(a), Joined(b));
  }

  lemma KeptOne(tb: Tables, piece: string)
    ensures Kept(tb, [piece]) == NonSpace(tb.spaces, piece)
  {
    assert [piece][..0] == [];
    assert Joined([piece]) == [] + piece == piece;
  }

  lemma KeptMore(tb: Tables, pieces: seq<string>, piece: string)
    ensures Kept(tb, pieces + [piece]) == Kept(tb, pieces) + NonSpace(tb.spaces, piece)
  {
    KeptConcat(tb, pieces, [piece]);
    KeptOne(tb, piece);
  }

  lemma GluedHasAlnum(tb: Tables, a: string, b: string)
    ensures HasAlnum(tb, a) ==> HasAlnum(tb, a + b)
  {
    if k :| 0 <= k < |a| && tb.alnum(a[k]) { assert (a + b)[k] == a[k]; }
  }

  lemma Regroup(a: string, b: string, c: string, ab: string, bc: string)
    requires ab == a + b && bc == b + c
    ensures ab + c == a + bc
  {
  }

  lemma Glued(tb: Tables, front: seq<string>, last: string, more: string)
    ensures Kept(tb, front + [last + more]) == Kept(tb, front + [last]) + NonSpace(tb.spaces, more)
  {
    KeptMore(tb, front, last);
    KeptMore(tb, front, last + more);
    NonSpaceConcat(tb.spaces, last, more);
    Regroup(Kept(tb, front), NonSpace(tb.spaces, last), NonSpace(tb.spaces, more),
            Kept(tb, front + [last]), NonSpace(tb.spaces, last + more));
  }

  lemma AddedIsTidy(tb: Tables, parts: seq<string>, part: string)
    requires Tidy(tb, parts) && Trimmed(tb, part)
    ensures Tidy(tb, Added(tb, parts, part))
  {
    if parts != [] && !HasAlnum(tb, part) {
      var last := parts[|parts| - 1];
      GluedHasAlnum(tb, last, part);
      assert Trimmed(tb, last + part);
    }
  }

  lemma AddedKeeps(tb: Tables, parts: seq<string>, part: string)
    ensures Kept(tb, Added(tb, parts, part)) == Kept(tb, parts) + NonSpace(tb.spaces, part)
  {
    if parts != [] && !HasAlnum(tb, part) {
      var front, last := parts[..|parts| - 1], parts[|parts| - 1];
      assert parts == front + [last];
      assert Added(tb, parts, part) == front + [last + part];
      Glued(tb, front, last, part);
    } else {
      assert Added(tb, parts, part) == parts + [part];
      KeptMore(tb, parts, part);
    }
  }

  lemma AppendedKeeps(tb: Tables, parts: seq<string>, part: string)
    ensures Tidy(tb, parts) ==> Tidy(tb, Appended(tb, parts, part))
    ensures Kept(tb, Appended(tb, parts, part)) == Kept(tb, parts) + NonSpace(tb.spaces, part)
  {
    var normalized := Strip(tb.spaces, part);
    NonSpaceStrip(tb.spaces, part);
    if normalized != [] {
      AddedKeeps(tb, parts, normalized);
      if Tidy(tb, parts) { AddedIsTidy(tb, parts, normalized); }
    }
  }

  /** The pieces with letters or digits. */
  function Lettered(tb: Tables, pieces: seq<string>): nat {
    if pieces == [] then 0 else (if HasAlnum(tb, Strip(tb.spaces, pieces[0])) then 1 else 0) + Lettered(tb, pieces[1..])
  }

  /** Only pieces without letters and digits are glued to the part before them. */
  lemma {:induction false} PartsCounted(tb: Tables, parts: seq<string>, more: seq<string>)
    requires parts != []
    ensures |AppendAll(tb, parts, more)| == |parts| + Lettered(tb, more)
    decreases |more|
  {
    if more != [] {
      PartsCounted(tb, Appended(tb, parts, more[0]), more[1..]);
    }
  }

  lemma {:induction false} AppendAllKeeps(tb: Tables, parts: seq<string>, more: seq<string>)
    ensures Tidy(tb, parts) ==> Tidy(tb, AppendAll(tb, parts, more))
    ensures Kept(tb, AppendAll(tb, parts, more)) == Kept(tb, parts) + Kept(tb, more)
    decreases |more|
  {
    if more != [] {
      AppendedKeeps(tb, parts, more[0]);
      AppendAllKeeps(tb, Appended(tb, parts, more[0]), more[1..]);
      KeptConcat(tb, [more[0]], more[1..]);
      KeptOne(tb, more[0]);
      assert [more[0]] + more[1..] == more;
      Regroup(Kept(tb, parts), NonSpace(tb.spaces, more[0]), Kept(tb, more[1..]),
              Kept(tb, Appended(tb, parts, more[0])), Kept(tb, more));
    }
  }

  /** Cutting loses nothing but whitespace. */
  lemma {:induction false} PartsKeep(tb: Tables, t: string, cuts: iset<nat>, start: nat, e: nat)
    requires start <= |t| && start <= e
    ensures Kept(tb, PartsFrom(tb, t, cuts, start, e)) == NonSpace(tb.spaces, t[start..])
    decreases |t| + 1 - e
  {
    if e > |t| {
      KeptOne(tb, t[start..]);
    } else if start < e && e in cuts {
      var next := SkipSpaces(tb.spaces, t, e);
      PartsKeep(tb, t, cuts, next, next + 1);
      KeptConcat(tb, [t[start..e]], PartsFrom(tb, t, cuts, next, next + 1));
      KeptOne(tb, t[start..e]);
      CutKeeps(tb, t, start, e);
    } else {
      PartsKeep(tb, t, cuts, start, e + 1);
    }
  }

  lemma CutKeeps(tb: Tables, t: string, start: nat, e: nat)
    requires start <= e <= |t|
    ensures NonSpace(tb.spaces, t[start..]) ==
            NonSpace(tb.spaces, t[start..e]) + NonSpace(tb.spaces, t[SkipSpaces(tb.spaces, t, e)..])
  {
    var next := SkipSpaces(tb.spaces, t, e);
    SkippedSpaces(tb.spaces, t, e);
    assert t[start..] == t[start..e] + (t[e..next] + t[next..]);
    NonSpaceConcat(tb.spaces, t[start..e], t[e..next] + t[next..]);
    NonSpaceConcat(tb.spaces, t[e..next], t[next..]);
    NonSpaceOfSpaces(tb.spaces, t[e..next]);
  }

  // ----------------------------------------------------------------------------------- segments

  predicate Over(tb: Tables, limit: real, t: string) { Units(tb, t) > limit + EPSILON }

  /** The longest prefix within the limit, but at least one character. */
  function PrefixLength(tb: Tables, limit: real, t: string, i: nat): (n: nat)
    requires 0 < i <= |t|
    ensures i <= n <= |t|
    ensures n > i ==> !Over(tb, limit, t[..n])
    ensures n < |t| ==> Over(tb, limit, t[..n + 1])
    decreases |t| - i
  {
    if i == |t| || Over(tb, limit, t[..i + 1]) then i else PrefixLength(tb, limit, t, i + 1)
  }

  lemma {:induction false} NotOverYet(tb: Tables, limit: real, t: string, i: nat, k: nat)
    requires 0 < i < k && i <= |t| && k <= PrefixLength(tb, limit, t, i)
    ensures !Over(tb, limit, t[..k])
    decreases |t| - i
  {
    if i + 1 < k { NotOverYet(tb, limit, t, i + 1, k); }
  }

  /** `_prefix_within_units` */
  method PrefixWithin(tb: Tables, limit: real, t: string) returns (n: nat)
    requires t != []
    ensures n == PrefixLength(tb, limit, t, 1)
  {
    var units := 0.0;
    for index := 0 to |t|
      invariant units == Units(tb, t[..index])
      invariant index > 0 ==> PrefixLength(tb, limit, t, index) == PrefixLength(tb, limit, t, 1)
    {
      assert t[..index + 1][..index] == t[..index];
      var next := units + Width(tb, t[index]) as real / 10.0;
      if index > 0 && next > limit + EPSILON { return index; }
      units := next;
    }
    n := |t|;
  }

  /** Where a segment ends: at the last space within the limit if that leaves at least half of it,
      otherwise where the limit is reached. */
  function SplitPoint(tb: Tables, limit: real, t: string): (at: nat)
    requires t != []
    ensures 0 < at <= PrefixLength(tb, limit, t, 1)
  {
    var hard := PrefixLength(tb, limit, t, 1);
    var space := RFind(t, ' ', hard);
    if space <= 0 || Units(tb, t[..space]) < limit / 2.0 then hard else space
  }

  /** The longest prefix within the limit, or the first character. */
  ghost predicate Longest(tb: Tables, limit: real, t: string, hard: nat) {
    && 0 < hard <= |t| && (hard > 1 ==> !Over(tb, limit, t[..hard])) && (hard < |t| ==> Over(tb, limit, t[..hard + 1]))
  }

  /** At the last space of that prefix if this leaves at least half of the limit, otherwise at its end:
      then no space in it leaves as much. */
  ghost predicate SplitsAt(tb: Tables, limit: real, t: string, hard: nat, at: nat)
    requires hard <= |t|
  {
    || (0 < at < hard && t[at] == ' ' && ' ' !in t[at + 1..hard] && Units(tb, t[..at]) >= limit / 2.0)
    || (at == hard && forall k :: 0 < k < hard && t[k] == ' ' ==> Units(tb, t[..k]) < limit / 2.0)
  }

  lemma SplitPointLaw(tb: Tables, limit: real, t: string)
    requires t != []
    ensures exists hard: nat :: Longest(tb, limit, t, hard) && SplitsAt(tb, limit, t, hard, SplitPoint(tb, limit, t))
  {
    var hard := PrefixLength(tb, limit, t, 1);
    var space := RFind(t, ' ', hard);
    RFindIsLast(t, ' ', hard);
    if SplitPoint(tb, limit, t) == hard {
      forall k | 0 < k < hard && t[k] == ' '
        ensures Units(tb, t[..k]) < limit / 2.0
      {
        assert k <= space && t[..space][0..k] == t[..k];
        PartHasFewer(tb, t[..space], 0, k);
      }
    }
    assert Longest(tb, limit, t, hard) && SplitsAt(tb, limit, t, hard, SplitPoint(tb, limit, t));
  }

  /** A sentence becomes these segments. */
  function Segments(tb: Tables, limit: real, sentence: string): seq<string>
    requires limit > 0.0
    decreases |sentence|
  {
    if Units(tb, sentence) <= limit then (if sentence == [] then [] else [sentence])
    else
      var at := SplitPoint(tb, limit, sentence);
      [Strip(tb.spaces, sentence[..at])] + Segments(tb, limit, Strip(tb.spaces, sentence[at..]))
  }

  /** A sentence within the limit stays whole; otherwise its first segment ends at a split point, and the rest
      follows. */
  ghost predicate CutUp(tb: Tables, limit: real, sentence: string, segments: seq<string>)
    decreases |segments|
  {
    if Units(tb, sentence) <= limit then segments == if sentence == [] then [] else [sentence]
    else
      && segments != []
      && exists hard: nat, at: nat ::
           && Longest(tb, limit, sentence, hard) && SplitsAt(tb, limit, sentence, hard, at) && at <= |sentence|
           && segments[0] == Strip(tb.spaces, sentence[..at])
           && CutUp(tb, limit, Strip(tb.spaces, sentence[at..]), segments[1..])
  }

  lemma {:induction false} SegmentsCutUp(tb: Tables, limit: real, sentence: string)
    requires limit > 0.0
    ensures CutUp(tb, limit, sentence, Segments(tb, limit, sentence))
    decreases |sentence|
  {
    if Units(tb, sentence) > limit {
      SplitPointLaw(tb, limit, sentence);
      var at := SplitPoint(tb, limit, sentence);
      SegmentsCutUp(tb, limit, Strip(tb.spaces, sentence[at..]));
      assert Segments(tb, limit, sentence)[1..] == Segments(tb, limit, Strip(tb.spaces, sentence[at..]));
    }
  }

  ghost predicate Bounded(tb: Tables, limit: real, segment: string) {
    Trimmed(tb, segment) && (!Over(tb, limit, segment) || |segment| == 1)
  }

  /** A segment is trimmed, and within the limit unless it is a single character. */
  lemma SegmentBounded(tb: Tables, limit: real, sentence: string)
    requires Trimmed(tb, sentence)
    ensures Bounded(tb, limit, Strip(tb.spaces, sentence[..SplitPoint(tb, limit, sentence)]))
  {
    var hard, at := PrefixLength(tb, limit, sentence, 1), SplitPoint(tb, limit, sentence);
    var head := sentence[..at];
    NonSpaceStrip(tb.spaces, head);
    assert head[0] !in tb.spaces;
    var first := SkipSpaces(tb.spaces, head, 0);
    PartHasFewer(tb, head, first, TrimEnd(tb.spaces, head, first, |head|));
    if at > 1 { NotOverYet(tb, limit, sentence, 1, at); }
  }

  ghost predicate AllBounded(tb: Tables, limit: real, segments: seq<string>) {
    forall k :: 0 <= k < |segments| ==> Bounded(tb, limit, segments[k])
  }

  lemma {:induction false} SegmentsBounded(tb: Tables, limit: real, sentence: string)
    requires limit > 0.0 && (sentence == [] || Trimmed(tb, sentence))
    ensures AllBounded(tb, limit, Segments(tb, limit, sentence))
    decreases |sentence|
  {
    if Units(tb, sentence) > limit {
      SegmentBounded(tb, limit, sentence);
      SegmentsBounded(tb, limit, Strip(tb.spaces, sentence[SplitPoint(tb, limit, sentence)..]));
    }
  }

  lemma {:induction false} SegmentsKeep(tb: Tables, limit: real, sentence: string)
    requires limit > 0.0
    ensures Kept(tb, Segments(tb, limit, sentence)) == NonSpace(tb.spaces, sentence)
    decreases |sentence|
  {
    if Units(tb, sentence) > limit {
      var at := SplitPoint(tb, limit, sentence);
      var head, tail := Strip(tb.spaces, sentence[..at]), Strip(tb.spaces, sentence[at..]);
      SegmentsKeep(tb, limit, tail);
      KeptConcat(tb, [head], Segments(tb, limit, tail));
      KeptOne(tb, head);
      NonSpaceStrip(tb.spaces, sentence[..at]);
      NonSpaceStrip(tb.spaces, sentence[at..]);
      NonSpaceConcat(tb.spaces, sentence[..at], sentence[at..]);
      assert sentence == sentence[..at] + sentence[at..];
    } else if sentence != [] {
      KeptOne(tb, sentence);
    }
  }

  lemma OneMore(before: seq<string>, segment: string, rest: seq<string>, all: seq<string>)
    requires before + ([segment] + rest) == all
    ensures before + [segment] + rest == all
  {
  }

  method SplitSentence(tb: Tables, limit: real, sentence: string, before: seq<string>) returns (result: seq<string>)
    requires limit > 0.0
    ensures result == before + Segments(tb, limit, sentence)
  {
    result := before;
    var remaining := sentence;
    while Units(tb, remaining) > limit
      invariant result + Segments(tb, limit, remaining) == before + Segments(tb, limit, sentence)
      decreases |remaining|
    {
      var hard := PrefixWithin(tb, limit, remaining);
      var at := RFind(remaining, ' ', hard);
      if at <= 0 || Units(tb, remaining[..at]) < limit / 2.0 {
        at := hard;
      }
      assert at == SplitPoint(tb, limit, remaining);
      var segment := Strip(tb.spaces, remaining[..at]);
      OneMore(result, segment, Segments(tb, limit, Strip(tb.spaces, remaining[at..])),
              before + Segments(tb, limit, sentence));
      result := result + [segment];
      remaining := Strip(tb.spaces, remaining[at..]);
    }
    if remaining != [] {
      result := result + [remaining];
    }
  }

  function AllSegments(tb: Tables, limit: real, sentences: seq<string>): seq<string>
    requires limit > 0.0
  {
    if sentences == [] then []
    else AllSegments(tb, limit, sentences[..|sentences| - 1]) + Segments(tb, limit, sentences[|sentences| - 1])
  }

  lemma {:induction false} AllSegmentsKept(tb: Tables, limit: real, sentences: seq<string>)
    requires limit > 0.0
    ensures Kept(tb, AllSegments(tb, limit, sentences)) == Kept(tb, sentences)
  {
    if sentences != [] {
      var front, last := sentences[..|sentences| - 1], sentences[|sentences| - 1];
      AllSegmentsKept(tb, limit, front);
      SegmentsKeep(tb, limit, last);
      KeptConcat(tb, AllSegments(tb, limit, front), Segments(tb, limit, last));
      KeptConcat(tb, front, [last]);
      KeptOne(tb, last);
      assert front + [last] == sentences;
    }
  }

  lemma {:induction false} AllSegmentsBounded(tb: Tables, limit: real, sentences: seq<string>)
    requires limit > 0.0 && forall k :: 0 <= k < |sentences| ==> Trimmed(tb, sentences[k])
    ensures AllBounded(tb, limit, AllSegments(tb, limit, sentences))
  {
    if sentences != [] {
      AllSegmentsBounded(tb, limit, sentences[..|sentences| - 1]);
      SegmentsBounded(tb, limit, sentences[|sentences| - 1]);
    }
  }

  /** The budget of a segment covers its estimate, under the ceiling. */
  ghost predicate Budgeted(tb: Tables, s: Settings, segment: string) {
    Estimate(tb, segment) <= MaxNewTokens(tb, s, segment) <= s.ceiling
  }

  lemma BoundedIsBudgeted(tb: Tables, s: Settings, segment: string)
    requires s.Valid() && Bounded(tb, UnitLimit(s), segment)
    ensures Budgeted(tb, s, segment)
    ensures UnitLimit(s) >= 3.2 ==> !Over(tb, UnitLimit(s), segment)
  {
    NeverClamped(tb, s, segment);
    if |segment| == 1 { assert Tenths(tb, segment[..0]) == 0; }
  }

  method SplitSentences(tb: Tables, limit: real, sentences: seq<string>) returns (result: seq<string>)
    requires limit > 0.0
    ensures result == AllSegments(tb, limit, sentences)
  {
    result := [];
    for i := 0 to |sentences|
      invariant result == AllSegments(tb, limit, sentences[..i])
    {
      assert sentences[..i + 1][..i] == sentences[..i];
      result := SplitSentence(tb, limit, sentences[i], result);
    }
    assert sentences[..|sentences|] == sentences;
  }

  /** `_split_text`: no character but whitespace is lost, no segment is over the limit unless it is a
      single character, and no token budget is cut below the estimate of its segment. */
  method SplitText(tb: Tables, s: Settings, t: string) returns (result: seq<string>)
    requires tb.Lawful() && s.Valid()
    ensures result == AllSegments(tb, UnitLimit(s), Sentences(tb, t))
    ensures Kept(tb, result) == NonSpace(tb.spaces, t)
    ensures AllBounded(tb, UnitLimit(s), result)
    ensures UnitLimit(s) >= 3.2 ==> forall k :: 0 <= k < |result| ==> !Over(tb, UnitLimit(s), result[k])
    ensures forall k :: 0 <= k < |result| ==> Budgeted(tb, s, result[k])
  {
    var limit := UnitLimit(s);
    var sentences := SentenceParts(tb, t);
    PartsLaws(tb, limit, t);
    result := SplitSentences(tb, limit, if sentences != [] then sentences else [Strip(tb.spaces, t)]);
    forall k | 0 <= k < |result|
      ensures Budgeted(tb, s, result[k])
      ensures limit >= 3.2 ==> !Over(tb, limit, result[k])
    {
      assert Bounded(tb, limit, result[k]);
      BoundedIsBudgeted(tb, s, result[k]);
    }
  }

  lemma PartsLaws(tb: Tables, limit: real, t: string)
    requires limit > 0.0
    ensures var parts := Sentences(tb, t);
            && Kept(tb, AllSegments(tb, limit, parts)) == NonSpace(tb.spaces, t)
            && AllBounded(tb, limit, AllSegments(tb, limit, parts))
            && (parts == [] ==> AllSegments(tb, limit, [Strip(tb.spaces, t)]) == [])
  {
    var parts := Sentences(tb, t);
    PartsKeep(tb, t, Cuts(tb, t), 0, 1);
    AppendAllKeeps(tb, [], PartsFrom(tb, t, Cuts(tb, t), 0, 1));
    assert t[0..] == t;
    AllSegmentsKept(tb, limit, parts);
    AllSegmentsBounded(tb, limit, parts);
    if parts == [] {
      NothingToSay(tb, t);
      assert [Strip(tb.spaces, t)][..0] == [];
      assert Segments(tb, limit, []) == [];
    }
  }

  lemma NothingToSay(tb: Tables, t: string)
    requires Kept(tb, []) == NonSpace(tb.spaces, t)
    ensures Strip(tb.spaces, t) == []
  {
    NothingKept(tb, t);
    NonSpaceStrip(tb.spaces, t);
  }

  lemma {:induction false} NothingKept(tb: Tables, t: string)
    requires NonSpace(tb.spaces, t) == []
    ensures AllSpace(tb.spaces, t, 0, |t|)
  {
    if t != [] {
      NothingKept(tb, t[1..]);
      assert forall k :: 0 < k < |t| ==> t[k] == t[1..][k - 1];
    }
  }
}
