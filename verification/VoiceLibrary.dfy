/** `VoiceLibraryManager.save`: a pair of files is replaced, while any file operation may fail. */
module VoiceLibrary {

  import opened Text

  type Bytes = seq<int>

  datatype Path =
    | Audio(name: string, ext: string)
    | Meta(name: string)
    | StagedAudio(name: string, transaction: string)
    | StagedMeta(name: string, transaction: string)
    | Backup(name: string, transaction: string)

  datatype Metadata = Metadata(
    name: string, sizeBytes: nat, contentType: string, createdAt: string, info: WavInfo, transcript: Option<string>)

  /** What `_wav_info` finds in a complete WAV file. */
  datatype WavInfo = WavInfo(frames: nat, sampleRate: nat, channels: nat)

  datatype Content = AudioFile(bytes: Bytes) | MetaFile(metadata: Metadata) | Torn   // Torn was written halfway

  type Files = map<Path, Content>

  /** What becomes of one file operation. A failed write may leave a torn file, a failed rename or
      removal leaves everything as it was. */
  datatype Fault = Works | Fails(torn: bool)

  const MAX_TRANSCRIPT_CHARS: nat := 10000

  function Extension(contentType: string): string {
    match contentType
    case "audio/mp3" => "mp3"
    case "audio/mpeg" => "mp3"
    case "audio/ogg" => "ogg"
    case "audio/flac" => "flac"
    case _ => "wav"
  }

  ghost predicate Same(a: Files, b: Files, p: Path) {
    (p in a <==> p in b) && (p in a ==> a[p] == b[p])
  }

  /** Staging and backup files of one transaction. */
  predicate Temporary(p: Path, name: string, transaction: string) {
    (p.StagedAudio? || p.StagedMeta? || p.Backup?) && p.name == name && p.transaction == transaction
  }

  /** Nothing but the pair of `name` and the files of the transaction has changed. */
  ghost predicate Local(before: Files, now: Files, name: string, transaction: string) {
    forall p :: p == Audio(name, "wav") || p == Meta(name) || Temporary(p, name, transaction) || Same(before, now, p)
  }

  datatype Progress = Progress(backedUp: bool, installed: bool, committed: bool)

  /** How far the transaction has come. */
  ghost predicate Reached(before: Files, now: Files, name: string, transaction: string, audio: Bytes,
      metadata: Metadata, g: Progress) {
    var live, meta, backup := Audio(name, "wav"), Meta(name), Backup(name, transaction);
    && Local(before, now, name, transaction)
    && (if g.committed then g.installed && meta in now && now[meta] == MetaFile(metadata) else Same(before, now, meta))
    && (if g.installed then live in now && now[live] == AudioFile(audio) && (live in before ==> g.backedUp)
        else if g.backedUp then live !in now
        else Same(before, now, live))
    && (g.backedUp ==> live in before && backup in now && now[backup] == before[live])
  }

  // One lemma for each step of the transaction.

  lemma StageStep(before: Files, now: Files, name: string, transaction: string, audio: Bytes, metadata: Metadata)
    requires forall p :: p == StagedAudio(name, transaction) || p == StagedMeta(name, transaction) || Same(before, now, p)
    ensures Reached(before, now, name, transaction, audio, metadata, Progress(false, false, false))
  {
  }

  lemma SetAsideStep(before: Files, now: Files, name: string, transaction: string, audio: Bytes, metadata: Metadata)
    requires Reached(before, now, name, transaction, audio, metadata, Progress(false, false, false))
    requires Audio(name, "wav") in now
    ensures var live, backup := Audio(name, "wav"), Backup(name, transaction);
            Reached(before, now[backup := now[live]] - {live}, name, transaction, audio, metadata, Progress(true, false, false))
  {
  }

  lemma InstallStep(before: Files, now: Files, name: string, transaction: string, audio: Bytes, metadata: Metadata, backedUp: bool)
    requires Reached(before, now, name, transaction, audio, metadata, Progress(backedUp, false, false))
    requires Audio(name, "wav") in before ==> backedUp
    ensures Reached(before, now[Audio(name, "wav") := AudioFile(audio)] - {StagedAudio(name, transaction)}, name, transaction,
                    audio, metadata, Progress(backedUp, true, false))
  {
  }

  lemma CommitStep(before: Files, now: Files, name: string, transaction: string, audio: Bytes, metadata: Metadata, backedUp: bool)
    requires Reached(before, now, name, transaction, audio, metadata, Progress(backedUp, true, false))
    ensures Reached(before, now[Meta(name) := MetaFile(metadata)] - {StagedMeta(name, transaction)}, name, transaction,
                    audio, metadata, Progress(backedUp, true, true))
  {
  }

  /** Everything but temporary files is as before. */
  ghost predicate Unchanged(before: Files, now: Files, name: string, transaction: string) {
    forall p :: Temporary(p, name, transaction) || Same(before, now, p)
  }

  /** The old audio, if there was any, is at its place or at the backup's. */
  ghost predicate Survives(before: Files, now: Files, name: string, transaction: string) {
    var live, backup := Audio(name, "wav"), Backup(name, transaction);
    live in before ==> (live in now && now[live] == before[live]) || (backup in now && now[backup] == before[live])
  }

  datatype Refusal = EmptyAudio | InvalidAudio | TooLong | TranscriptTooLong | LibraryFull

  datatype Outcome = Saved(metadata: Metadata) | Refused(reason: Refusal) | RolledBack | RollbackFailed

  /** Staging files may be gone, and after a commit the backup. */
  ghost predicate Cleaned(before: Files, now: Files, name: string, transaction: string, committed: bool) {
    forall p :: Same(before, now, p) || (p !in now && Temporary(p, name, transaction) && (p.Backup? ==> committed))
  }

  /** Audio of the same voice under other extensions may be gone. */
  ghost predicate WithoutObsolete(before: Files, now: Files, name: string) {
    forall p :: Same(before, now, p) || (p !in now && p.Audio? && p.name == name && p.ext != "wav")
  }

  lemma CommitEnds(before: Files, written: Files, cleaned: Files, now: Files, name: string, transaction: string,
      audio: Bytes, metadata: Metadata, g: Progress)
    requires Reached(before, written, name, transaction, audio, metadata, g) && g.committed && metadata.contentType == "audio/wav"
    requires Cleaned(written, cleaned, name, transaction, true) && WithoutObsolete(cleaned, now, name)
    ensures Installed(before, now, name, audio, metadata)
    ensures forall p: Path :: p.Meta? && p in now ==> p in before || p == Meta(name)
  {
    assert Same(written, cleaned, Meta(name)) && Same(cleaned, now, Meta(name));
    assert Same(written, cleaned, Audio(name, "wav")) && Same(cleaned, now, Audio(name, "wav"));
    forall p: Path | (p.Audio? || p.Meta?) && p.name != name
      ensures Same(before, now, p)
    {
      assert Same(before, written, p) && Same(written, cleaned, p) && Same(cleaned, now, p);
    }
  }

  lemma RollbackEnds(before: Files, restored: Files, now: Files, name: string, transaction: string)
    requires Survives(before, restored, name, transaction) && Local(before, restored, name, transaction) && Same(before, restored, Meta(name))
    requires Cleaned(restored, now, name, transaction, false)
    ensures Survives(before, now, name, transaction) && Local(before, now, name, transaction) && Same(before, now, Meta(name))
    ensures Unchanged(before, restored, name, transaction) ==> Unchanged(before, now, name, transaction)
    ensures forall p: Path :: p.Meta? && p in now ==> p in before
  {
    assert Same(restored, now, Meta(name)) && Same(restored, now, Audio(name, "wav")) && Same(restored, now, Backup(name, transaction));
    forall p | !Temporary(p, name, transaction)
      ensures Same(restored, now, p)
    {
    }
    assert forall p :: Same(before, restored, p) && Same(restored, now, p) ==> Same(before, now, p);
  }

  /** How a save may end. */
  ghost predicate Ends(before: Files, now: Files, name: string, transaction: string, audio: Bytes, outcome: Outcome) {
    match outcome
    case Saved(metadata) => Installed(before, now, name, audio, metadata)
    case Refused(_) => now == before
    case RolledBack => Unchanged(before, now, name, transaction)
    case RollbackFailed =>
      Survives(before, now, name, transaction) && Local(before, now, name, transaction) && Same(before, now, Meta(name))
  }

  /** The new pair is in place, and other voices are as before. */
  ghost predicate Installed(before: Files, now: Files, name: string, audio: Bytes, metadata: Metadata) {
    && Audio(name, "wav") in now && now[Audio(name, "wav")] == AudioFile(audio)
    && Meta(name) in now && now[Meta(name)] == MetaFile(metadata) && metadata.contentType == "audio/wav"
    && (forall p: Path :: (p.Audio? || p.Meta?) && p.name != name ==> Same(before, now, p))
  }

  /** The voice a library holds under a name; None where `get` reports an error. */
  function Held(files: Files, name: string): Option<(Bytes, Metadata)> {
    if Meta(name) !in files || !files[Meta(name)].MetaFile? then None
    else
      var metadata := files[Meta(name)].metadata;
      var live := Audio(name, Extension(metadata.contentType));
      if live !in files || !files[live].AudioFile? then None else Some((files[live].bytes, metadata))
  }

  /** What a save means to a reader: the new voice after a success, the old one after a failure that
      was rolled back; and no outcome touches another voice. */
  lemma ReadersSee(before: Files, now: Files, name: string, transaction: string, audio: Bytes, outcome: Outcome,
      other: string)
    requires Ends(before, now, name, transaction, audio, outcome)
    ensures outcome.Saved? ==> Held(now, name) == Some((audio, outcome.metadata))
    ensures outcome.Refused? || outcome.RolledBack? ==> Held(now, name) == Held(before, name)
    ensures other != name ==> Held(now, other) == Held(before, other)
  {
    forall p: Path | (p == Meta(other) || (p.Audio? && p.name == other)) && (other != name || outcome.RolledBack? || outcome.Refused?)
      ensures Same(before, now, p)
    {
    }
    forall p: Path | (p == Meta(name) || (p.Audio? && p.name == name)) && (outcome.RolledBack? || outcome.Refused?)
      ensures Same(before, now, p)
    {
    }
    assert Same(before, now, Meta(other)) || other == name;
  }

  lemma {:induction false} SubsetSize<T>(a: set<T>, b: set<T>)
    requires a <= b
    ensures |a| <= |b|
  {
    if a != {} {
      var x :| x in a;
      SubsetSize(a - {x}, b - {x});
    }
  }

  class Library {
    const maxCount: nat       // 0 = unlimited
    const maxSeconds: nat     // 0 = unlimited
    const spaces: set<char>
    const oracle: nat -> Fault
    var files: Files
    var tick: nat             // the number of file operations so far

    constructor (maxCount: nat, maxSeconds: nat, spaces: set<char>, oracle: nat -> Fault)
      ensures files == map[] && this.oracle == oracle
    {
      this.maxCount, this.maxSeconds, this.spaces, this.oracle := maxCount, maxSeconds, spaces, oracle;
      files, tick := map[], 0;
    }

    /** No file operation fails. */
    ghost predicate AllWork() { forall k :: oracle(k).Works? }

    // ------------------------------------------------------------------------- file operations

    method Write(p: Path, content: Content) returns (ok: bool)
      modifies this`files, this`tick
      ensures ok ==> files == old(files)[p := content]
      ensures !ok ==> !AllWork() && (files == old(files) || files == old(files)[p := Torn])
    {
      var fault := oracle(tick);
      tick := tick + 1;
      ok := fault.Works?;
      if ok {
        files := files[p := content];
      } else if fault.torn {
        files := files[p := Torn];
      }
    }

    method Rename(from: Path, to: Path) returns (ok: bool)
      requires from in files && from != to
      modifies this`files, this`tick
      ensures files == if ok then old(files)[to := old(files)[from]] - {from} else old(files)
      ensures AllWork() ==> ok
    {
      ok := oracle(tick).Works?;
      tick := tick + 1;
      if ok {
        files := files[to := files[from]] - {from};
      }
    }

    method Unlink(p: Path) returns (ok: bool)
      modifies this`files, this`tick
      ensures files == if ok then old(files) - {p} else old(files)
      ensures AllWork() ==> ok
    {
      ok := oracle(tick).Works?;
      tick := tick + 1;
      if ok {
        files := files - {p};
      }
    }

    // ------------------------------------------------------------------------- the transaction

    /** Both files are written beside the old ones. */
    method Stage(name: string, transaction: string, audio: Bytes, metadata: Metadata) returns (ok: bool)
      modifies this`files, this`tick
      ensures if ok then files == old(files)[StagedAudio(name, transaction) := AudioFile(audio)][StagedMeta(name, transaction) := MetaFile(metadata)]
              else forall p :: p == StagedAudio(name, transaction) || p == StagedMeta(name, transaction) || Same(old(files), files, p)
      ensures AllWork() ==> ok
    {
      ok := Write(StagedAudio(name, transaction), AudioFile(audio));
      if ok {
        ok := Write(StagedMeta(name, transaction), MetaFile(metadata));
      }
    }

    method SetAside(live: Path, backup: Path) returns (ok: bool)
      requires live != backup
      modifies this`files, this`tick
      ensures files == if ok && live in old(files) then old(files)[backup := old(files)[live]] - {live} else old(files)
      ensures AllWork() ==> ok
    {
      ok := true;
      if live in files {
        ok := Rename(live, backup);
      }
    }

    /** The `try` block. */
    method Install(name: string, transaction: string, audio: Bytes, metadata: Metadata) returns (g: Progress)
      requires forall p :: Temporary(p, name, transaction) ==> p !in files
      modifies this`files, this`tick
      ensures Reached(old(files), files, name, transaction, audio, metadata, g)
      ensures AllWork() ==> g.committed
    {
      var live, backup := Audio(name, "wav"), Backup(name, transaction);
      g := Progress(false, false, false);
      var ok := Stage(name, transaction, audio, metadata);
      StageStep(old(files), files, name, transaction, audio, metadata);
      if !ok { return; }
      var had := live in files;
      if had { SetAsideStep(old(files), files, name, transaction, audio, metadata); }
      ok := SetAside(live, backup);
      if !ok { return; }
      g := g.(backedUp := had);
      InstallStep(old(files), files, name, transaction, audio, metadata, had);
      ok := Rename(StagedAudio(name, transaction), live);
      if !ok { return; }
      g := g.(installed := true);
      CommitStep(old(files), files, name, transaction, audio, metadata, had);
      ok := Rename(StagedMeta(name, transaction), Meta(name));
      g := g.(committed := ok);
    }

    /** The `except` block. */
    method RollBack(name: string, transaction: string, g: Progress, ghost before: Files, ghost audio: Bytes,
        ghost metadata: Metadata) returns (ok: bool)
      requires Reached(before, files, name, transaction, audio, metadata, g) && !g.committed
      modifies this`files, this`tick
      ensures ok ==> Unchanged(before, files, name, transaction)
      ensures Survives(before, files, name, transaction) && Local(before, files, name, transaction) && Same(before, files, Meta(name))
    {
      ok := true;
      if g.installed {
        ok := Unlink(Audio(name, "wav"));
      }
      if ok && g.backedUp {
        ok := Rename(Backup(name, transaction), Audio(name, "wav"));
      }
    }

    /** The `finally` block: staging files, and after a commit the backup. Failures are ignored. */
    method CleanUp(name: string, transaction: string, committed: bool)
      modifies this`files, this`tick
      ensures Cleaned(old(files), files, name, transaction, committed)
      ensures AllWork() ==> forall p :: p in files && Temporary(p, name, transaction) ==> p.Backup? && !committed
    {
      var _ := Unlink(StagedAudio(name, transaction));
      var _ := Unlink(StagedMeta(name, transaction));
      if committed {
        var _ := Unlink(Backup(name, transaction));
      }
    }

    /** Audio of the same voice under another extension goes, if it can be removed. */
    method RemoveObsolete(name: string)
      modifies this`files, this`tick
      ensures WithoutObsolete(old(files), files, name)
      ensures AllWork() ==> forall p :: p in files && p.Audio? && p.name == name ==> p.ext == "wav"
    {
      var left := set p | p in files && p.Audio? && p.name == name && p.ext != "wav";
      while left != {}
        invariant forall p :: p in left ==> p.Audio? && p.name == name && p.ext != "wav"
        invariant WithoutObsolete(old(files), files, name)
        invariant AllWork() ==> forall p :: p in files && p.Audio? && p.name == name && p.ext != "wav" ==> p in left
        decreases |left|
      {
        var p :| p in left;
        left := left - {p};
        var _ := Unlink(p);
      }
    }

    // ---------------------------------------------------------------------------- save and get

    function Metas(): set<Path>
      reads this`files
    {
      set p | p in files && p.Meta?
    }

    /** What the rules of the library say to an upload. */
    function RefusalOf(name: string, audio: Bytes, info: Option<WavInfo>, transcript: Option<string>): Option<Refusal>
      reads this`files
    {
      if audio == [] then Some(EmptyAudio)
      else if info == None then Some(InvalidAudio)
      else if maxSeconds > 0 && info.value.frames > maxSeconds * info.value.sampleRate then Some(TooLong)
      else if transcript.Some? && |Strip(spaces, transcript.value)| > MAX_TRANSCRIPT_CHARS then Some(TranscriptTooLong)
      else if maxCount > 0 && Meta(name) !in files && |Metas()| >= maxCount then Some(LibraryFull)
      else None
    }

    function Normalized(transcript: Option<string>): Option<string> {
      if transcript.Some? && Strip(spaces, transcript.value) != [] then Some(Strip(spaces, transcript.value)) else None
    }

    /** The checks before anything is written. */
    method Check(name: string, audio: Bytes, info: Option<WavInfo>, transcript: Option<string>)
      returns (refusal: Option<Refusal>, normalized: Option<string>)
      requires info.Some? ==> info.value.frames > 0 && info.value.sampleRate > 0
      ensures refusal == RefusalOf(name, audio, info, transcript)
      ensures refusal == None ==> normalized == Normalized(transcript)
    {
      refusal, normalized := None, None;
      if audio == [] { return Some(EmptyAudio), None; }
      if info == None { return Some(InvalidAudio), None; }
      var seconds := info.value.frames as real / info.value.sampleRate as real;
      LongerThan(info.value.frames, info.value.sampleRate, maxSeconds);
      if maxSeconds > 0 && seconds > maxSeconds as real { return Some(TooLong), None; }
      if transcript.Some? {
        var stripped := Strip(spaces, transcript.value);
        if |stripped| > MAX_TRANSCRIPT_CHARS { return Some(TranscriptTooLong), None; }
        normalized := if stripped == [] then None else Some(stripped);
      }
      if maxCount > 0 && Meta(name) !in files {
        var existing := Metas();
        if |existing| >= maxCount { return Some(LibraryFull), None; }
      }
    }

    /** The transaction of `save`, from its `try` to the end. */
    method ReplacePair(name: string, transaction: string, audio: Bytes, metadata: Metadata) returns (outcome: Outcome)
      requires (forall p :: Temporary(p, name, transaction) ==> p !in files) && metadata.contentType == "audio/wav"
      modifies this`files, this`tick
      ensures !outcome.Refused? && Ends(old(files), files, name, transaction, audio, outcome)
      ensures outcome.Saved? ==> outcome.metadata == metadata
      ensures AllWork() ==> outcome.Saved? && forall p :: Temporary(p, name, transaction) ==> p !in files
      ensures forall p: Path :: p.Meta? && p in files ==> p in old(files) || p == Meta(name)
    {
      var g := Install(name, transaction, audio, metadata);
      ghost var written := files;
      if g.committed {
        CleanUp(name, transaction, true);
        ghost var cleaned := files;
        RemoveObsolete(name);
        CommitEnds(old(files), written, cleaned, files, name, transaction, audio, metadata, g);
        outcome := Saved(metadata);
      } else {
        var ok := RollBack(name, transaction, g, old(files), audio, metadata);
        ghost var restored := files;
        CleanUp(name, transaction, false);
        RollbackEnds(old(files), restored, files, name, transaction);
        outcome := if ok then RolledBack else RollbackFailed;
      }
    }

    /** `save`, for a name that is sanitized already and a transaction id nobody has used. */
    method Save(name: string, audio: Bytes, info: Option<WavInfo>, transcript: Option<string>, createdAt: string,
        transaction: string)
      returns (outcome: Outcome)
      requires info.Some? ==> info.value.frames > 0 && info.value.sampleRate > 0
      requires forall p :: Temporary(p, name, transaction) ==> p !in files
      modifies this`files, this`tick
      ensures Ends(old(files), files, name, transaction, audio, outcome)
      ensures outcome.Refused? <==> old(RefusalOf(name, audio, info, transcript)).Some?
      ensures outcome.Refused? ==> Some(outcome.reason) == old(RefusalOf(name, audio, info, transcript))
      ensures outcome.Saved? ==> outcome.metadata == Metadata(name, |audio|, "audio/wav", createdAt, info.value, Normalized(transcript))
      ensures AllWork() ==> (outcome.Saved? || outcome.Refused?) && forall p :: Temporary(p, name, transaction) ==> p !in files
      ensures maxCount > 0 && old(|Metas()|) <= maxCount ==> |Metas()| <= maxCount
    {
      var refusal, normalized := Check(name, audio, info, transcript);
      if refusal.Some? { return Refused(refusal.value); }
      var metadata := Metadata(name, |audio|, "audio/wav", createdAt, info.value, normalized);
      outcome := ReplacePair(name, transaction, audio, metadata);
      assert Metas() <= old(Metas()) + {Meta(name)};
      SubsetSize(Metas(), old(Metas()) + {Meta(name)});
    }

    /** `get` */
    method Get(name: string) returns (found: Option<(Bytes, Metadata)>)
      ensures found == Held(files, name)
    {
      if Meta(name) !in files || !files[Meta(name)].MetaFile? { return None; }
      var metadata := files[Meta(name)].metadata;
      var live := Audio(name, Extension(metadata.contentType));
      if live !in files || !files[live].AudioFile? { return None; }
      return Some((files[live].bytes, metadata));
    }
  }

  lemma LongerThan(frames: nat, rate: nat, seconds: nat)
    requires rate > 0
    ensures frames as real / rate as real > seconds as real <==> frames > seconds * rate
  {
    var x := frames as real / rate as real;
    assert x * rate as real == frames as real;
    if x > seconds as real { assert x * rate as real > seconds as real * rate as real; }
    if x <= seconds as real { assert x * rate as real <= seconds as real * rate as real; }
    assert (seconds * rate) as real == seconds as real * rate as real;
  }
}
