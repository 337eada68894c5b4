/** `StreamingEdgeTrimmer`: silence is cut off the ends of a stream that arrives in chunks. */
module EdgeTrimmer {
  import opened Text

  type Samples = seq<real>

  predicate Voiced(sample: real, threshold: real) {
    sample > threshold || -sample > threshold
  }

  /** The index of the first voiced sample at or after `i`, or -1. */
  function VoicedFrom(s: Samples, threshold: real, i: nat): (v: int)
    requires i <= |s|
    ensures v == -1 || i <= v < |s|
    ensures v >= 0 ==> Voiced(s[v], threshold)
    decreases |s| - i
  {
    if i == |s| then -1 else if Voiced(s[i], threshold) then i else VoicedFrom(s, threshold, i + 1)
  }

  /** The index of the last voiced sample before `n`, or -1. */
  function VoicedBefore(s: Samples, threshold: real, n: nat): (v: int)
    requires n <= |s|
    ensures -1 <= v < n
    ensures v >= 0 ==> Voiced(s[v], threshold)
  {
    if n == 0 then -1 else if Voiced(s[n - 1], threshold) then n - 1 else VoicedBefore(s, threshold, n - 1)
  }

  lemma {:induction false} QuietUpTo(s: Samples, threshold: real, i: nat)
    requires i <= |s|
    ensures var v := VoicedFrom(s, threshold, i);
            forall k :: i <= k < |s| && (v == -1 || k < v) ==> !Voiced(s[k], threshold)
    decreases |s| - i
  {
    if i < |s| { QuietUpTo(s, threshold, i + 1); }
  }

  lemma {:induction false} QuietAfter(s: Samples, threshold: real, n: nat)
    requires n <= |s|
    ensures forall k :: VoicedBefore(s, threshold, n) < k < n ==> !Voiced(s[k], threshold)
  {
    if n > 0 { QuietAfter(s, threshold, n - 1); }
  }

  function FirstVoiced(s: Samples, threshold: real): int { VoicedFrom(s, threshold, 0) }
  function LastVoiced(s: Samples, threshold: real): (v: int)
    ensures FirstVoiced(s, threshold) <= v
    ensures FirstVoiced(s, threshold) < 0 <==> v < 0
  {
    QuietUpTo(s, threshold, 0);
    QuietAfter(s, threshold, |s|);
    VoicedBefore(s, threshold, |s|)
  }

  function KeepLast(s: Samples, count: nat): Samples { s[Max(0, |s| - count)..] }

  /** The whole stream at once: from `lead` before the first voiced sample to `tail` after the last. */
  function Trimmed(s: Samples, threshold: real, lead: nat, tail: nat): Samples {
    var first, last := FirstVoiced(s, threshold), LastVoiced(s, threshold);
    if first < 0 then [] else s[Max(0, first - lead)..Min(|s|, last + 1 + tail)]
  }

  /** `trim_silence`, which leaves a stream without a voiced sample as it is. */
  function TrimSilence(s: Samples, threshold: real): Samples {
    var first, last := FirstVoiced(s, threshold), LastVoiced(s, threshold);
    if s == [] || first < 0 then s else s[first..last + 1]
  }

  /** Without padding the streaming form is `trim_silence` exactly on the streams that have a
      voiced sample or no sample at all. */
  lemma NoPaddingIsTrimSilence(s: Samples, threshold: real)
    ensures Trimmed(s, threshold, 0, 0) == TrimSilence(s, threshold) <==> s == [] || FirstVoiced(s, threshold) >= 0
  {
  }

  /** What the trimmer holds after `stream` was pushed and `output` returned. */
  datatype State = State(started: bool, leading: Samples, trailing: Samples)

  ghost predicate Sound(threshold: real, lead: nat, st: State, stream: Samples, output: Samples) {
    var first, last := FirstVoiced(stream, threshold), LastVoiced(stream, threshold);
    if !st.started then
      first < 0 && st.leading == KeepLast(stream, lead) && st.trailing == [] && output == []
    else
      && 0 <= first && st.leading == []
      && output + st.trailing == stream[Max(0, first - lead)..]
      && Max(0, first - lead) + |output| == last + 1
  }

  /** Speech has begun; what was returned and `combined` are the kept part of the stream, and its
      last voiced sample is found in `combined`, or just before it. */
  ghost predicate Held(threshold: real, lead: nat, combined: Samples, stream: Samples, output: Samples) {
    var first := FirstVoiced(stream, threshold);
    && first >= 0
    && output + combined == stream[Max(0, first - lead)..]
    && Max(0, first - lead) + |output| + LastVoiced(combined, threshold) == LastVoiced(stream, threshold)
  }

  class Trimmer {
    const threshold: real
    const lead: nat
    const tail: nat

    var started: bool
    var leading: Samples
    var trailing: Samples

    ghost var stream: Samples   // everything pushed
    ghost var output: Samples   // everything returned by Push

    ghost predicate Valid()
      reads this
    {
      Sound(threshold, lead, State(started, leading, trailing), stream, output)
    }

    constructor (threshold: real, lead: int, tail: int)
      ensures Valid() && stream == [] && output == []
      ensures this.threshold == threshold && this.lead == Max(0, lead) && this.tail == Max(0, tail)
    {
      this.threshold, this.lead, this.tail := threshold, Max(0, lead), Max(0, tail);
      started, leading, trailing := false, [], [];
      stream, output := [], [];
    }

    method Push(chunk: Samples) returns (out: Samples)
      requires Valid()
      modifies this
      ensures Valid() && stream == old(stream) + chunk && output == old(output) + out
    {
      if chunk == [] {
        assert stream + chunk == stream && output + chunk == output;
        return chunk;
      }
      var samples := chunk;
      if !started {
        var voiced := FirstVoiced(samples, threshold);
        if voiced < 0 {
          StillSilent(stream, chunk, threshold, lead, output);
          leading := KeepLast(leading + samples, lead);
          stream := stream + chunk;
          return [];
        }
        StartStep(threshold, lead, leading, stream, chunk, output);
        samples := KeepLast(leading + samples[..voiced], lead) + samples[voiced..];
        leading := [];
        started := true;
        assert trailing == [];
      } else {
        ContinueStep(threshold, lead, trailing, stream, chunk, output);
      }
      stream := stream + chunk;
      out := Release(trailing + samples);
    }

    /** All up to the last voiced sample is returned, the rest is held back. */
    method Release(combined: Samples) returns (out: Samples)
      requires started && leading == [] && Held(threshold, lead, combined, stream, output)
      modifies this`trailing, this`output
      ensures Valid() && output == old(output) + out
    {
      var lastVoiced := LastVoiced(combined, threshold);
      ReleaseStep(threshold, lead, combined, stream, output);
      out, trailing := combined[..lastVoiced + 1], combined[lastVoiced + 1..];
      output := output + out;
    }

    method Finish() returns (out: Samples)
      requires Valid()
      modifies this`trailing
      ensures old(output) + out == Trimmed(old(stream), threshold, lead, tail)
    {
      if !started {
        return [];
      }
      out := trailing[..Min(|trailing|, tail)];
      trailing := [];
    }
  }

  lemma StillSilent(stream: Samples, chunk: Samples, threshold: real, lead: nat, output: Samples)
    requires Sound(threshold, lead, State(false, KeepLast(stream, lead), []), stream, output)
    requires FirstVoiced(chunk, threshold) < 0
    ensures Sound(threshold, lead, State(false, KeepLast(KeepLast(stream, lead) + chunk, lead), []), stream + chunk, output)
    ensures output + [] == output
  {
    var all := stream + chunk;
    QuietUpTo(stream, threshold, 0);
    QuietUpTo(chunk, threshold, 0);
    QuietUpTo(stream + chunk, threshold, 0);
    assert forall k :: 0 <= k < |all| ==> all[k] == if k < |stream| then stream[k] else chunk[k - |stream|];
  }

  lemma FirstInSuffix(stream: Samples, chunk: Samples, threshold: real)
    requires FirstVoiced(stream, threshold) < 0 && FirstVoiced(chunk, threshold) >= 0
    ensures FirstVoiced(stream + chunk, threshold) == |stream| + FirstVoiced(chunk, threshold)
  {
    var all, voiced := stream + chunk, FirstVoiced(chunk, threshold);
    QuietUpTo(stream, threshold, 0);
    QuietUpTo(chunk, threshold, 0);
    QuietUpTo(stream + chunk, threshold, 0);
    assert forall k :: 0 <= k < |all| ==> all[k] == if k < |stream| then stream[k] else chunk[k - |stream|];
    assert Voiced(all[|stream| + voiced], threshold);
  }

  lemma KeepLastJoin(stream: Samples, chunk: Samples, voiced: nat, lead: nat)
    requires voiced <= |chunk|
    ensures KeepLast(KeepLast(stream, lead) + chunk[..voiced], lead) + chunk[voiced..]
            == (stream + chunk)[Max(0, |stream| + voiced - lead)..]
  {
    var head, rest := stream + chunk[..voiced], chunk[voiced..];
    assert stream + chunk == head + rest;
    DropAppend(head, rest, Max(0, |head| - lead));
  }

  lemma StartStep(threshold: real, lead: nat, leading: Samples, stream: Samples, chunk: Samples, output: Samples)
    requires Sound(threshold, lead, State(false, leading, []), stream, output) && FirstVoiced(chunk, threshold) >= 0
    ensures var voiced := FirstVoiced(chunk, threshold);
            var samples := KeepLast(leading + chunk[..voiced], lead) + chunk[voiced..];
            Held(threshold, lead, [] + samples, stream + chunk, output)
  {
    var all, voiced := stream + chunk, FirstVoiced(chunk, threshold);
    var begin := Max(0, |stream| + voiced - lead);
    FirstInSuffix(stream, chunk, threshold);
    KeepLastJoin(stream, chunk, voiced, lead);
    LastInSuffix(all, begin, all[begin..], threshold);
    assert [] + all[begin..] == all[begin..];
  }

  lemma ContinueStep(threshold: real, lead: nat, trailing: Samples, stream: Samples, chunk: Samples, output: Samples)
    requires Sound(threshold, lead, State(true, [], trailing), stream, output)
    ensures Held(threshold, lead, trailing + chunk, stream + chunk, output)
  {
    var all, combined, begin := stream + chunk, trailing + chunk, Max(0, FirstVoiced(stream, threshold) - lead);
    VoicedAppend(stream, chunk, threshold);
    DropAppend(stream, chunk, begin);
    assert output + combined == (output + trailing) + chunk;
    assert all[begin + |output| - 1] == stream[LastVoiced(stream, threshold)];
    LastInSuffix(all, begin + |output|, combined, threshold);
  }

  lemma ReleaseStep(threshold: real, lead: nat, combined: Samples, stream: Samples, output: Samples)
    requires Held(threshold, lead, combined, stream, output)
    ensures var count := LastVoiced(combined, threshold) + 1;
            Sound(threshold, lead, State(true, [], combined[count..]), stream, output + combined[..count])
  {
  }

  lemma VoicedAppend(stream: Samples, chunk: Samples, threshold: real)
    requires FirstVoiced(stream, threshold) >= 0
    ensures FirstVoiced(stream + chunk, threshold) == FirstVoiced(stream, threshold)
  {
    var all, first := stream + chunk, FirstVoiced(stream, threshold);
    QuietUpTo(stream, threshold, 0);
    QuietUpTo(all, threshold, 0);
    assert forall k :: 0 <= k < |stream| ==> all[k] == stream[k];
    assert Voiced(all[first], threshold);
  }

  lemma LastInSuffix(s: Samples, from: nat, suffix: Samples, threshold: real)
    requires from <= |s| && suffix == s[from..] && FirstVoiced(s, threshold) >= 0
    requires from <= FirstVoiced(s, threshold) || Voiced(s[from - 1], threshold)
    ensures LastVoiced(s, threshold) == from + LastVoiced(suffix, threshold)
  {
    var first, last, whole := FirstVoiced(s, threshold), LastVoiced(suffix, threshold), LastVoiced(s, threshold);
    QuietAfter(suffix, threshold, |suffix|);
    QuietAfter(s, threshold, |s|);
    assert forall k :: 0 <= k < |suffix| ==> suffix[k] == s[from + k];
    assert whole >= from ==> Voiced(suffix[whole - from], threshold);
  }

  /** For every chunking: what the trimmer returns is one slice of the whole stream. */
  method TrimStream(threshold: real, lead: nat, tail: nat, chunks: seq<Samples>) returns (output: Samples)
    ensures output == Trimmed(Joined(chunks), threshold, lead, tail)
  {
    var trimmer := new Trimmer(threshold, lead, tail);
    output := [];
    for i := 0 to |chunks|
      invariant trimmer.Valid() && fresh(trimmer)
      invariant trimmer.stream == Joined(chunks[..i]) && trimmer.output == output
    {
      assert chunks[..i + 1][..i] == chunks[..i];
      var out := trimmer.Push(chunks[i]);
      output := output + out;
    }
    assert chunks[..|chunks|] == chunks;
    var out := trimmer.Finish();
    output := output + out;
  }
}
