/** Character classes, whitespace scanning and small sequence functions that the components share. */
module Text {

  datatype Option<+T> = None | Some(value: T)

  /** The characters for which Python's `str.isspace` (and `\s`) is true. Everything below takes
      the set as a parameter and holds for any other. */
  const WHITESPACE: set<char> :=
    {'\U{9}', '\U{A}', '\U{B}', '\U{C}', '\U{D}', '\U{1C}', '\U{1D}', '\U{1E}', '\U{1F}', ' ',
     '\U{85}', '\U{A0}', '\U{1680}', '\U{2000}', '\U{2001}', '\U{2002}', '\U{2003}', '\U{2004}',
     '\U{2005}', '\U{2006}', '\U{2007}', '\U{2008}', '\U{2009}', '\U{200A}', '\U{2028}',
     '\U{2029}', '\U{202F}', '\U{205F}', '\U{3000}'}

  ghost predicate AllSpace(ws: set<char>, t: string, lo: nat, hi: nat)
    requires hi <= |t|
  {
    forall k :: lo <= k < hi ==> t[k] in ws
  }

  /** The first position at or after `i` that holds no whitespace. */
  function SkipSpaces(ws: set<char>, t: string, i: nat): (r: nat)
    requires i <= |t|
    ensures i <= r <= |t|
    ensures r < |t| ==> t[r] !in ws
    decreases |t| - i
  {
    if i < |t| && t[i] in ws then SkipSpaces(ws, t, i + 1) else i
  }

  /** The first position at or after `i` that holds whitespace. */
  function SkipWord(ws: set<char>, t: string, i: nat): (r: nat)
    requires i <= |t|
    ensures i <= r <= |t|
    ensures forall k :: i <= k < r ==> t[k] !in ws
    ensures r < |t| ==> t[r] in ws
    decreases |t| - i
  {
    if i < |t| && t[i] !in ws then SkipWord(ws, t, i + 1) else i
  }

  /** `hi` moved left over the whitespace before it, but not past `lo`. */
  function TrimEnd(ws: set<char>, t: string, lo: nat, hi: nat): (r: nat)
    requires lo <= hi <= |t|
    ensures lo <= r <= hi
    ensures lo < r ==> t[r - 1] !in ws
    decreases hi
  {
    if lo < hi && t[hi - 1] in ws then TrimEnd(ws, t, lo, hi - 1) else hi
  }

  function Strip(ws: set<char>, t: string): (r: string)
    ensures r != [] ==> r[0] !in ws && r[|r| - 1] !in ws
    ensures |r| <= |t|
  {
    var first := SkipSpaces(ws, t, 0);
    t[first..TrimEnd(ws, t, first, |t|)]
  }

  /** The last position of `c` before `hi`, or -1. */
  function RFind(t: string, c: char, hi: nat): (r: int)
    ensures -1 <= r < |t| && r < hi
    ensures r >= 0 ==> t[r] == c
  {
    if hi == 0 then -1
    else if hi <= |t| && t[hi - 1] == c then hi - 1
    else RFind(t, c, hi - 1)
  }

  /** The first position of `c` at or after `i`, or -1. */
  function Find(t: string, c: char, i: nat): (r: int)
    ensures r == -1 || i <= r < |t|
    ensures r >= 0 ==> t[r] == c
    decreases |t| - i
  {
    if i >= |t| then -1 else if t[i] == c then i else Find(t, c, i + 1)
  }

  lemma {:induction false} RFindIsLast(t: string, c: char, hi: nat)
    ensures forall k :: RFind(t, c, hi) < k < hi && k < |t| ==> t[k] != c
  {
    if hi > 0 && !(hi <= |t| && t[hi - 1] == c) { RFindIsLast(t, c, hi - 1); }
  }

  lemma {:induction false} RFindInPrefix(t: string, w: nat, c: char, hi: nat)
    requires hi <= w <= |t|
    ensures RFind(t[..w], c, hi) == RFind(t, c, hi)
  {
    if hi > 0 { RFindInPrefix(t, w, c, hi - 1); }
  }

  lemma {:induction false} FindIsFirst(t: string, c: char, i: nat)
    ensures forall k :: i <= k < |t| && (Find(t, c, i) == -1 || k < Find(t, c, i)) ==> t[k] != c
    decreases |t| - i
  {
    if i < |t| && t[i] != c { FindIsFirst(t, c, i + 1); }
  }

  lemma {:induction false} SkippedSpaces(ws: set<char>, t: string, i: nat)
    requires i <= |t|
    ensures AllSpace(ws, t, i, SkipSpaces(ws, t, i))
    decreases |t| - i
  {
    if i < |t| && t[i] in ws { SkippedSpaces(ws, t, i + 1); }
  }

  lemma {:induction false} TrimmedSpaces(ws: set<char>, t: string, lo: nat, hi: nat)
    requires lo <= hi <= |t|
    ensures AllSpace(ws, t, TrimEnd(ws, t, lo, hi), hi)
    decreases hi
  {
    if lo < hi && t[hi - 1] in ws { TrimmedSpaces(ws, t, lo, hi - 1); }
  }

  /** The text with its whitespace removed: what must survive every split. */
  function NonSpace(ws: set<char>, t: string): string {
    if t == [] then [] else (if t[0] in ws then [] else [t[0]]) + NonSpace(ws, t[1..])
  }

  lemma {:induction false} NonSpaceConcat(ws: set<char>, a: string, b: string)
    ensures NonSpace(ws, a + b) == NonSpace(ws, a) + NonSpace(ws, b)
  {
    if a == [] {
      assert a + b == b;
    } else {
      assert (a + b)[1..] == a[1..] + b;
      NonSpaceConcat(ws, a[1..], b);
    }
  }

  lemma {:induction false} NonSpaceOfSpaces(ws: set<char>, t: string)
    requires AllSpace(ws, t, 0, |t|)
    ensures NonSpace(ws, t) == []
  {
    if t != [] {
      assert forall k :: 0 <= k < |t[1..]| ==> t[1..][k] == t[k + 1];
      NonSpaceOfSpaces(ws, t[1..]);
    }
  }

  /** Cutting whitespace off both ends loses no other character, and leaves nothing
      only when there was nothing but whitespace. */
  lemma {:induction false} NonSpaceStrip(ws: set<char>, t: string)
    ensures NonSpace(ws, Strip(ws, t)) == NonSpace(ws, t)
    ensures Strip(ws, t) == [] <==> AllSpace(ws, t, 0, |t|)
  {
    var first := SkipSpaces(ws, t, 0);
    var last := TrimEnd(ws, t, first, |t|);
    SkippedSpaces(ws, t, 0);
    TrimmedSpaces(ws, t, first, |t|);
    SpacesAround(ws, t, first, last);
    if last > first {
      assert t[first] !in ws;
    }
  }

  lemma SpacesAround(ws: set<char>, t: string, first: nat, last: nat)
    requires first <= last <= |t| && AllSpace(ws, t, 0, first) && AllSpace(ws, t, last, |t|)
    ensures NonSpace(ws, t[first..last]) == NonSpace(ws, t)
  {
    assert t == t[..first] + t[first..last] + t[last..];
    NonSpaceConcat(ws, t[..first] + t[first..last], t[last..]);
    NonSpaceConcat(ws, t[..first], t[first..last]);
    NonSpaceOfSpaces(ws, t[..first]);
    NonSpaceOfSpaces(ws, t[last..]);
  }

  // ── Sequences and numbers ───────────────────────────────────────────────────────────

  function Joined<T>(parts: seq<seq<T>>): seq<T> {
    if parts == [] then [] else Joined(parts[..|parts| - 1]) + parts[|parts| - 1]
  }

  lemma {:induction false} JoinedConcat<T>(a: seq<seq<T>>, b: seq<seq<T>>)
    ensures Joined(a + b) == Joined(a) + Joined(b)
  {
    if b == [] {
      assert a + b == a;
    } else {
      assert (a + b)[..|a + b| - 1] == a + b[..|b| - 1];
      JoinedConcat(a, b[..|b| - 1]);
    }
  }

  lemma DropAppend<T>(a: seq<T>, b: seq<T>, k: nat)
    requires k <= |a|
    ensures (a + b)[k..] == a[k..] + b
    ensures (a + b)[..k] == a[..k]
  {
  }

  function Max(a: int, b: int): int { if a >= b then a else b }
  function Min(a: int, b: int): int { if a <= b then a else b }
  function MaxReal(a: real, b: real): real { if a >= b then a else b }
  function MinReal(a: real, b: real): real { if a <= b then a else b }
}
