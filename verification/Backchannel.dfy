/** `is_backchannel`: is an utterance made of nothing but acknowledgement phrases? */
module Backchannel {
  import opened Text

  type Word = string
  type Phrase = seq<Word>

  const MAX_WORDS := 5

  ghost predicate Tiling(dictionary: set<Phrase>, phrases: seq<Phrase>, words: Phrase) {
    (forall k :: 0 <= k < |phrases| ==> phrases[k] in dictionary) && Joined(phrases) == words
  }

  /** The words are a concatenation of dictionary phrases. */
  ghost predicate Tiled(dictionary: set<Phrase>, words: Phrase) {
    exists phrases :: Tiling(dictionary, phrases, words)
  }

  ghost predicate IsLongest(dictionary: set<Phrase>, longest: nat) {
    && (forall p :: p in dictionary ==> |p| <= longest)
    && (exists p :: p in dictionary && |p| == longest)
  }

  /** The first `end` words end a tiling whose last phrase has `size` words. */
  ghost predicate EndsWith(dictionary: set<Phrase>, words: Phrase, end: nat, size: nat)
    requires end <= |words|
  {
    1 <= size <= end && words[end - size..end] in dictionary && Tiled(dictionary, words[..end - size])
  }

  lemma Extended(dictionary: set<Phrase>, words: Phrase, last: Phrase)
    requires Tiled(dictionary, words) && last in dictionary
    ensures Tiled(dictionary, words + last)
  {
    var phrases :| Tiling(dictionary, phrases, words);
    assert (phrases + [last])[..|phrases|] == phrases;
    assert Tiling(dictionary, phrases + [last], words + last);
  }

  lemma {:induction false} LastPhrase(dictionary: set<Phrase>, phrases: seq<Phrase>, words: Phrase) returns (size: nat)
    requires words != [] && Tiling(dictionary, phrases, words)
    ensures EndsWith(dictionary, words, |words|, size)
  {
    var front, last := phrases[..|phrases| - 1], phrases[|phrases| - 1];
    if last == [] {
      size := LastPhrase(dictionary, front, words);
    } else {
      size := |last|;
      assert words == Joined(front) + last;
      assert words[|words| - size..|words|] == last && words[..|words| - size] == Joined(front);
      assert Tiling(dictionary, front, Joined(front));
    }
  }

  /** What one row of the table decides: a prefix is tiled exactly if some phrase, no longer than
      the longest one of the dictionary, ends it. */
  lemma TiledByLastPhrase(dictionary: set<Phrase>, longest: nat, words: Phrase, end: nat)
    requires IsLongest(dictionary, longest) && 1 <= end <= |words|
    ensures Tiled(dictionary, words[..end]) <==>
            exists size: nat :: size <= longest && EndsWith(dictionary, words, end, size)
  {
    var prefix := words[..end];
    if Tiled(dictionary, prefix) {
      var phrases :| Tiling(dictionary, phrases, prefix);
      var size := LastPhrase(dictionary, phrases, prefix);
      assert prefix[end - size..end] == words[end - size..end];
      assert prefix[..end - size] == words[..end - size];
      assert size <= longest && EndsWith(dictionary, words, end, size);
    }
    if size: nat :| size <= longest && EndsWith(dictionary, words, end, size) {
      Extended(dictionary, words[..end - size], words[end - size..end]);
      assert words[..end - size] + words[end - size..end] == prefix;
    }
  }

  /** The table when the rows below `end` are filled in. */
  ghost predicate Filled(dictionary: set<Phrase>, words: Phrase, canEnd: seq<bool>, end: nat) {
    && end <= |canEnd| == |words| + 1
    && (forall i :: 0 <= i < end ==> canEnd[i] == Tiled(dictionary, words[..i]))
    && (forall i :: end <= i < |canEnd| ==> !canEnd[i])
  }

  /** One row: the loop over the sizes of the last phrase, with its early break. */
  method FillRow(dictionary: set<Phrase>, longest: nat, words: Phrase, canEnd: array<bool>, end: nat)
    requires IsLongest(dictionary, longest) && 1 <= end <= |words| && Filled(dictionary, words, canEnd[..], end)
    modifies canEnd
    ensures Filled(dictionary, words, canEnd[..], end + 1)
  {
    ghost var rows := canEnd[..];
    for size := 1 to Min(longest, end) + 1
      invariant canEnd[..] == rows
      invariant forall s: nat :: 1 <= s < size ==> !EndsWith(dictionary, words, end, s)
    {
      assert canEnd[end - size] == Tiled(dictionary, words[..end - size]);
      if canEnd[end - size] && words[end - size..end] in dictionary {
        assert EndsWith(dictionary, words, end, size);
        canEnd[end] := true;
        break;
      }
    }
    TiledByLastPhrase(dictionary, longest, words, end);
    assert canEnd[..] == rows[end := Tiled(dictionary, words[..end])];
  }

  /** The table-filling loops decide the tiling question, whatever the dictionary: neither the
      bound on the phrase length nor the early break loses a tiling. */
  method IsBackchannel(dictionary: set<Phrase>, longest: nat, words: Phrase) returns (backchannel: bool)
    requires IsLongest(dictionary, longest)
    ensures backchannel <==> words != [] && |words| <= MAX_WORDS && Tiled(dictionary, words)
  {
    if words == [] || |words| > MAX_WORDS {
      return false;
    }
    var canEnd := new bool[|words| + 1](i => i == 0);
    assert Tiling(dictionary, [], words[..0]);
    for end := 1 to |words| + 1
      invariant Filled(dictionary, words, canEnd[..], end)
    {
      FillRow(dictionary, longest, words, canEnd, end);
    }
    assert words[..|words|] == words;
    return canEnd[|words|];
  }
}
