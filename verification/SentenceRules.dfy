/** The boundary rules of the Live Reader, as functions of a text.
    What the source takes from Unicode tables and from line-level regular expressions is a
    parameter (`Rules`); every result below holds for every choice of it. */
module SentenceRules {
  import opened Text

  datatype Rules = Rules(
    spaces: set<char>,             // whitespace
    closers: set<char>,            // closing quotes and brackets
    entities: seq<string>,         // the HTML entities that close a quotation, in lower case
    extend: char -> bool,          // combining marks and other grapheme extenders
    nonterminal: string -> bool,   // the text before a period says it ends no sentence
    entityBefore: string -> bool,  // the text before a semicolon ends in an HTML entity name
    structural: string -> bool,    // the line is a heading, list item, quote or bold line
    clean: string -> string        // Markdown turned into prose
  )

  const ZWJ: char := '\U{200D}'

  /** Grapheme extenders are no whitespace. Entity names start with an ampersand and hold no
      sentence mark. */
  ghost predicate Lawful(r: Rules) {
    && (forall c <- r.closers :: !SentenceMark(c))
    && '&' !in r.spaces && ZWJ !in r.spaces
    && (forall c :: r.extend(c) ==> c !in r.spaces)
    && (forall w <- r.entities :: PlainEntity(w))
  }

  ghost predicate PlainEntity(w: string) {
    w != [] && w[0] == '&' && forall k :: 0 <= k < |w| ==> !SentenceMark(w[k])
  }

  /** No two of the names can start at the same place of a text. */
  ghost predicate Distinct(words: seq<string>) {
    forall a, b :: 0 <= a < b < |words| ==> Differ(words[a], words[b])
  }

  ghost predicate Differ(x: string, y: string) {
    exists k :: 0 <= k < |x| && k < |y| && x[k] != y[k]
  }

  // ── Closing quotes and brackets after a punctuation mark ────────────────────────────

  /** The characters and the entity names in the source's pattern. */
  const CLOSERS: set<char> := {'"', '\'', ')', ']', '\U{2019}', '\U{201D}', '\U{BB}'}

  const ENTITY_CLOSERS: seq<string> :=
    ["&quot;", "&rdquo;", "&rsquo;", "&#34;", "&#8217;", "&#8221;", "&#x22;", "&#x2019;", "&#x201d;"]

  /** Case folding as the case-insensitive regular expressions apply it to entity names. */
  function Fold(c: char): char {
    if 'A' <= c <= 'Z' then c + 32 as char else if c == '\U{17F}' then 's' else c
  }

  predicate FoldedAt(t: string, i: nat, word: string) {
    i + |word| <= |t| && forall k :: 0 <= k < |word| ==> Fold(t[i + k]) == word[k]
  }

  function EntityLength(words: seq<string>, t: string, i: nat): (len: nat) {
    if words == [] then 0
    else if words[0] != [] && FoldedAt(t, i, words[0]) then |words[0]|
    else EntityLength(words[1..], t, i)
  }

  lemma {:induction false} EntityFound(words: seq<string>, t: string, i: nat)
    ensures EntityLength(words, t, i) > 0 ==>
              exists w {:trigger FoldedAt(t, i, w)} :: w in words && EntityLength(words, t, i) == |w| && FoldedAt(t, i, w)
  {
    if words != [] && !(words[0] != [] && FoldedAt(t, i, words[0])) { EntityFound(words[1..], t, i); }
  }

  /** Length of the one closing token at `i`, or 0. */
  function CloserLength(r: Rules, t: string, i: nat): nat {
    if i < |t| && t[i] in r.closers then 1 else EntityLength(r.entities, t, i)
  }

  /** End of the longest run of closing tokens that starts at `i`. No closing token begins with
      whitespace, so only the longest run can be followed by it. */
  function CloserEnd(r: Rules, t: string, i: nat): (e: nat)
    requires i <= |t|
    ensures i <= e <= |t|
    decreases |t| - i
  {
    var len := CloserLength(r, t, i);
    if len == 0 || i + len > |t| then i else CloserEnd(r, t, i + len)
  }

  // ── Sentence, clause and cap boundaries ─────────────────────────────────────────────

  predicate SentenceMark(c: char) { c in {'.', '!', '?'} }
  predicate ClauseMark(c: char) { c in {';', ':'} }
  predicate CapMark(c: char) { c in {',', ';', ':', '\U{2014}'} }

  /** A mark at `p`, its closers, then whitespace. */
  predicate MarkMatch(r: Rules, t: string, mark: char -> bool, p: nat) {
    p < |t| && mark(t[p]) && var e := CloserEnd(r, t, p + 1); e < |t| && t[e] in r.spaces
  }

  /** End of the first sentence that is complete in `t`, searching from `p`. */
  function SentenceBoundary(r: Rules, t: string, p: nat): (b: Option<nat>)
    ensures b.Some? ==> p < b.value < |t| && t[b.value] in r.spaces
    decreases |t| - p
  {
    if p >= |t| then None
    else if !MarkMatch(r, t, SentenceMark, p) then SentenceBoundary(r, t, p + 1)
    else if t[p] == '.' && r.nonterminal(t[..p]) then SentenceBoundary(r, t, CloserEnd(r, t, p + 1))
    else Some(CloserEnd(r, t, p + 1))
  }

  function ClauseBoundary(r: Rules, t: string, p: nat): (b: Option<nat>)
    ensures b.Some? ==> p < b.value < |t| && t[b.value] in r.spaces
    decreases |t| - p
  {
    if p >= |t| then None
    else if !MarkMatch(r, t, ClauseMark, p) then ClauseBoundary(r, t, p + 1)
    else if t[p] == ';' && r.entityBefore(t[..p]) then ClauseBoundary(r, t, CloserEnd(r, t, p + 1))
    else Some(CloserEnd(r, t, p + 1))
  }

  /** End of the last clause mark of `t` found from `p` on; `best` is the one found so far. */
  function LastCapMatch(r: Rules, t: string, p: nat, best: Option<nat>): (b: Option<nat>)
    ensures b == best || (b.Some? && p < b.value < |t| && t[b.value] in r.spaces)
    decreases |t| - p
  {
    if p >= |t| then best
    else if !MarkMatch(r, t, CapMark, p) then LastCapMatch(r, t, p + 1, best)
    else
      var e := CloserEnd(r, t, p + 1);
      LastCapMatch(r, t, e, if t[p] == ';' && r.entityBefore(t[..p]) then best else Some(e))
  }

  /** The last clause end in the second half of the first `limit` characters. */
  function CapClauseBoundary(r: Rules, t: string, limit: nat): (b: Option<nat>)
    ensures b.Some? ==> 0 < b.value < |t| && b.value < limit
  {
    var head := if limit <= |t| then t[..limit] else t;
    LastCapMatch(r, head, limit / 2, None)
  }

  /** A sentence mark whose closers reach the very end of the text. */
  function SentenceEndsText(r: Rules, t: string, p: nat): bool
    decreases |t| - p
  {
    if p >= |t| then false
    else if SentenceMark(t[p]) && CloserEnd(r, t, p + 1) == |t| then !(t[p] == '.' && r.nonterminal(t[..p]))
    else SentenceEndsText(r, t, p + 1)
  }

  /** `b` moved right so that it does not cut a combining-mark or emoji-ZWJ cluster. */
  function GraphemeBoundary(r: Rules, t: string, b: nat): (e: nat)
    ensures b <= |t| ==> e <= |t|
    ensures b <= e
    decreases |t| - b
  {
    if b >= |t| then b
    else if r.extend(t[b]) then GraphemeBoundary(r, t, b + 1)
    else if t[b] == ZWJ && b + 1 < |t| then GraphemeBoundary(r, t, b + 2)
    else b
  }

  /** No grapheme extender and no joiner anywhere in the text. */
  ghost predicate Unmarked(r: Rules, t: string) {
    forall k :: 0 <= k < |t| ==> !r.extend(t[k]) && t[k] != ZWJ
  }

  /** `lo..hi` holds only marks that belong to the character before them: extenders, and joiners with
      the character they join. */
  ghost predicate Marks(r: Rules, t: string, lo: nat, hi: nat)
    decreases hi - lo
  {
    lo < hi ==>
      && lo < |t|
      && ((r.extend(t[lo]) && Marks(r, t, lo + 1, hi)) || (t[lo] == ZWJ && lo + 1 < hi && Marks(r, t, lo + 2, hi)))
  }

  /** A cut never separates a character from the marks that belong to it, and moves only over such
      marks. */
  lemma {:induction false} GraphemeIsWhole(r: Rules, t: string, b: nat)
    ensures var e := GraphemeBoundary(r, t, b);
            && (e < |t| ==> !r.extend(t[e]) && !(t[e] == ZWJ && e + 1 < |t|))
            && Marks(r, t, b, e)
    ensures Unmarked(r, t) ==> GraphemeBoundary(r, t, b) == b
    decreases |t| - b
  {
    if b < |t| {
      if r.extend(t[b]) {
        GraphemeIsWhole(r, t, b + 1);
      } else if t[b] == ZWJ && b + 1 < |t| {
        GraphemeIsWhole(r, t, b + 2);
      }
    }
  }

  // ── The first complete sentence ─────────────────────────────────────────────────────

  lemma {:induction false} ClosersHoldNoMarks(r: Rules, t: string, i: nat)
    requires Lawful(r) && i <= |t|
    ensures forall k :: i <= k < CloserEnd(r, t, i) ==> !SentenceMark(t[k])
    decreases |t| - i
  {
    var len := CloserLength(r, t, i);
    if len > 0 && i + len <= |t| {
      ClosersHoldNoMarks(r, t, i + len);
      if t[i] !in r.closers {
        EntityFound(r.entities, t, i);
        var w :| w in r.entities && len == |w| && FoldedAt(t, i, w);
        EntityHoldsNoMarks(t, i, w);
      }
    }
  }

  lemma EntityHoldsNoMarks(t: string, i: nat, w: string)
    requires PlainEntity(w) && FoldedAt(t, i, w)
    ensures forall k :: i <= k < i + |w| ==> !SentenceMark(t[k])
    ensures t[i] == '&'
  {
    forall k | i <= k < i + |w|
      ensures !SentenceMark(t[k])
    {
      assert Fold(t[i + (k - i)]) == w[k - i];
    }
    assert Fold(t[i + 0]) == w[0];
  }

  /** A sentence ends with the mark at `p`. */
  ghost predicate SentenceEndAt(r: Rules, t: string, p: nat) {
    MarkMatch(r, t, SentenceMark, p) && !(t[p] == '.' && r.nonterminal(t[..p]))
  }

  ghost predicate FirstSentenceEnd(r: Rules, t: string, p: nat, b: nat) {
    exists q: nat :: p <= q < b && SentenceEndAt(r, t, q) && b == CloserEnd(r, t, q + 1) && NoSentenceEnd(r, t, p, q)
  }

  ghost predicate NoSentenceEnd(r: Rules, t: string, lo: nat, hi: nat) {
    forall q: nat :: lo <= q < hi ==> !SentenceEndAt(r, t, q)
  }

  ghost predicate FirstSentence(r: Rules, t: string, p: nat, b: Option<nat>) {
    match b
    case None => NoSentenceEnd(r, t, p, |t|)
    case Some(e) => FirstSentenceEnd(r, t, p, e)
  }

  /** The search finds the end of the first sentence, closing quotes included, or there is none:
      stepping over the closers of an abbreviation misses nothing. */
  lemma {:induction false} SentenceBoundaryIsFirst(r: Rules, t: string, p: nat)
    requires Lawful(r)
    ensures FirstSentence(r, t, p, SentenceBoundary(r, t, p))
    decreases |t| - p
  {
    if p < |t| {
      if !MarkMatch(r, t, SentenceMark, p) {
        SentenceBoundaryIsFirst(r, t, p + 1);
        FirstFromBefore(r, t, p, p + 1);
      } else if t[p] == '.' && r.nonterminal(t[..p]) {
        ClosersHoldNoMarks(r, t, p + 1);
        SentenceBoundaryIsFirst(r, t, CloserEnd(r, t, p + 1));
        FirstFromBefore(r, t, p, CloserEnd(r, t, p + 1));
      } else {
        assert SentenceEndAt(r, t, p);
      }
    }
  }

  lemma FirstFromBefore(r: Rules, t: string, p: nat, next: nat)
    requires p <= next && NoSentenceEnd(r, t, p, next)
    ensures forall b: nat :: FirstSentenceEnd(r, t, next, b) ==> FirstSentenceEnd(r, t, p, b)
    ensures NoSentenceEnd(r, t, next, |t|) ==> NoSentenceEnd(r, t, p, |t|)
  {
    forall b: nat | FirstSentenceEnd(r, t, next, b)
      ensures FirstSentenceEnd(r, t, p, b)
    {
      var q: nat :| next <= q < b && SentenceEndAt(r, t, q) && b == CloserEnd(r, t, q + 1) && NoSentenceEnd(r, t, next, q);
      assert NoSentenceEnd(r, t, p, q);
    }
  }

  /** A sentence mark at `q` with nothing but closers after it. */
  predicate LastMarkAt(r: Rules, t: string, q: nat) {
    q < |t| && SentenceMark(t[q]) && CloserEnd(r, t, q + 1) == |t|
  }

  /** The text ends a sentence exactly if the first mark that only closers follow is not an abbreviation's. */
  lemma {:induction false} SentenceEndsTextLaw(r: Rules, t: string, p: nat)
    ensures SentenceEndsText(r, t, p) <==>
              exists q: nat :: p <= q && LastMarkAt(r, t, q) && !(t[q] == '.' && r.nonterminal(t[..q]))
                               && forall k: nat :: p <= k < q ==> !LastMarkAt(r, t, k)
    decreases |t| - p
  {
    if p < |t| && !LastMarkAt(r, t, p) { SentenceEndsTextLaw(r, t, p + 1); }
  }

  // ── The first clause, and the last one before a limit ───────────────────────────────

  /** No closing character is a clause mark, and of an entity name only the last character may be. */
  ghost predicate ClausesLawful(r: Rules) {
    && (forall c <- r.closers :: !CapMark(c))
    && (forall w <- r.entities :: forall k :: 0 <= k < |w| - 1 ==> !CapMark(w[k]))
  }

  /** The character at `q` is the last one of a closing entity. */
  ghost predicate EndsEntity(r: Rules, t: string, q: nat) {
    exists w {:trigger w in r.entities} :: w in r.entities && 0 < |w| <= q + 1 && FoldedAt(t, q + 1 - |w|, w)
  }

  lemma {:induction false} ClosersHoldNoClause(r: Rules, t: string, i: nat, k: nat)
    requires ClausesLawful(r) && i <= |t| && i <= k < CloserEnd(r, t, i) && CapMark(t[k])
    ensures EndsEntity(r, t, k)
    decreases |t| - i
  {
    var len := CloserLength(r, t, i);
    if i + len <= k {
      ClosersHoldNoClause(r, t, i + len, k);
    } else {
      EntityFound(r.entities, t, i);
      assert t[i] !in r.closers;
      var w :| w in r.entities && len == |w| && FoldedAt(t, i, w);
      assert Fold(t[i + (k - i)]) == w[k - i];
    }
  }

  /** A mark with its closers before whitespace, that does not end an HTML entity. */
  ghost predicate ClauseEndAt(r: Rules, t: string, mark: char -> bool, q: nat) {
    MarkMatch(r, t, mark, q) && !(t[q] == ';' && r.entityBefore(t[..q]))
  }

  /** All such marks in `lo..hi` belong to closing entities. */
  ghost predicate NoClauseEnd(r: Rules, t: string, mark: char -> bool, lo: nat, hi: nat) {
    forall q: nat :: lo <= q < hi && ClauseEndAt(r, t, mark, q) ==> EndsEntity(r, t, q)
  }

  ghost predicate FirstClauseEnd(r: Rules, t: string, p: nat, b: nat) {
    exists q: nat :: p <= q < b && ClauseEndAt(r, t, ClauseMark, q) && b == CloserEnd(r, t, q + 1) && NoClauseEnd(r, t, ClauseMark, p, q)
  }

  lemma ClosersSkipped(r: Rules, t: string, mark: char -> bool, p: nat)
    requires ClausesLawful(r) && p < |t| && forall c :: mark(c) ==> CapMark(c)
    requires !ClauseEndAt(r, t, mark, p)
    ensures NoClauseEnd(r, t, mark, p, CloserEnd(r, t, p + 1))
  {
    forall q: nat | p <= q < CloserEnd(r, t, p + 1) && ClauseEndAt(r, t, mark, q)
      ensures EndsEntity(r, t, q)
    {
      ClosersHoldNoClause(r, t, p + 1, q);
    }
  }

  ghost predicate FirstClause(r: Rules, t: string, p: nat, b: Option<nat>) {
    match b
    case None => NoClauseEnd(r, t, ClauseMark, p, |t|)
    case Some(e) => FirstClauseEnd(r, t, p, e)
  }

  lemma {:induction false} ClauseBoundaryIsFirst(r: Rules, t: string, p: nat)
    requires ClausesLawful(r)
    ensures FirstClause(r, t, p, ClauseBoundary(r, t, p))
    decreases |t| - p
  {
    if p < |t| {
      if ClauseEndAt(r, t, ClauseMark, p) {
      } else {
        var next := if MarkMatch(r, t, ClauseMark, p) then CloserEnd(r, t, p + 1) else p + 1;
        ClosersSkipped(r, t, ClauseMark, p);
        ClauseBoundaryIsFirst(r, t, next);
      }
    }
  }

  ghost predicate LastCapEnd(r: Rules, t: string, p: nat, b: nat) {
    && (exists q: nat :: p <= q < b && ClauseEndAt(r, t, CapMark, q) && b == CloserEnd(r, t, q + 1))
    && NoClauseEnd(r, t, CapMark, b, |t|)
  }

  lemma {:induction false} LastCapMatchIsLast(r: Rules, t: string, p: nat, best: Option<nat>)
    requires ClausesLawful(r)
    ensures var b := LastCapMatch(r, t, p, best);
            (b == best && NoClauseEnd(r, t, CapMark, p, |t|)) || (b.Some? && LastCapEnd(r, t, p, b.value))
    decreases |t| - p
  {
    if p < |t| {
      var e := CloserEnd(r, t, p + 1);
      if ClauseEndAt(r, t, CapMark, p) {
        LastCapMatchIsLast(r, t, e, Some(e));
      } else {
        ClosersSkipped(r, t, CapMark, p);
        LastCapMatchIsLast(r, t, if MarkMatch(r, t, CapMark, p) then e else p + 1, best);
      }
    }
  }

  ghost predicate LastCap(r: Rules, head: string, p: nat, b: Option<nat>) {
    match b
    case None => NoClauseEnd(r, head, CapMark, p, |head|)
    case Some(e) => LastCapEnd(r, head, p, e)
  }

  /** The cap takes the last clause end of the second half of the limit, or there is none in it. */
  lemma CapClauseIsLast(r: Rules, t: string, limit: nat)
    requires ClausesLawful(r)
    ensures LastCap(r, if limit <= |t| then t[..limit] else t, limit / 2, CapClauseBoundary(r, t, limit))
  {
    LastCapMatchIsLast(r, if limit <= |t| then t[..limit] else t, limit / 2, None);
  }
}
