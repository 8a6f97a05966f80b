/** How a speaker folder's analysis results are sorted into review buckets
    (`organise_results` of submit_slurm.py). The folder is a map from the relative
    path of each regular file to its content; copying a file is adding a map entry. */
module SlurmResults {
  import opened Optional
  import opened Strings
  import opened JsonValues
  import opened PurePaths

  datatype Bucket = NeedsAttention | Reviewed

  function BucketDir(b: Bucket): string {
    match b
    case NeedsAttention => "needs_further_attention"
    case Reviewed => "reviewed"
  }

  /** A call scoring below the threshold needs further attention; any other is reviewed. */
  function BucketFor(score: int, threshold: int): Bucket {
    if score < threshold then NeedsAttention else Reviewed
  }

  /** The boundary: a score equal to the threshold is reviewed, one below it is not. */
  lemma BucketBoundary(threshold: int)
    ensures BucketFor(threshold, threshold) == Reviewed
    ensures BucketFor(threshold - 1, threshold) == NeedsAttention
  {
  }

  /** Lowering a score never moves a call out of `needs_further_attention`. */
  lemma BucketMonotone(low: int, high: int, threshold: int)
    requires low <= high
    ensures BucketFor(high, threshold) == NeedsAttention ==> BucketFor(low, threshold) == NeedsAttention
    ensures BucketFor(low, threshold) == Reviewed ==> BucketFor(high, threshold) == Reviewed
  {
  }

  /** A file of the folder: text, or a JSON document written by `json.dump`
      (which `json.load` reads back as the same value). */
  datatype FileContent = Text(text: string) | Doc(doc: Json)

  /** Relative path of every regular file below the speaker folder, with its content. */
  type Folder = map<string, FileContent>

  const ResultsFile: string := "analysis_results.json"
  const CompanionSuffixes: seq<string> := [".vtt", ".srt", ".txt", ".json"]

  /** `shutil.copy2` guarded by "exists and is a regular file". */
  function Copy(fs: Folder, src: string, dst: string): Folder {
    if src in fs then fs[dst := fs[src]] else fs
  }

  /** What one entry of the results file decides: its bucket, its call id and the
      audio file it names. */
  datatype CallPlan = CallPlan(key: string, payload: Json, bucket: Bucket, callId: string, audioName: string)

  /** The score a payload carries (`int(payload.get("score", 0))`), `None` where `int()` raises. */
  function ScoreOf(members: seq<(string, Json)>): Option<int> {
    ToInt(Get(members, "score", Int(0)))
  }

  /** The plan for one entry, or `None` where Python raises: a payload that is not an
      object, a score `int()` refuses, or an `audio_file` that is not a string. */
  function PlanCall(key: string, payload: Json, threshold: int): Option<CallPlan> {
    if !payload.Object? then None
    else
      var score := ScoreOf(payload.members);
      var audio := Get(payload.members, "audio_file", Str(key));
      if score.None? || !audio.Str? then None
      else Some(CallPlan(key, payload, BucketFor(score.value, threshold), Stem(Name(audio.s)), audio.s))
  }

  /** The bucket follows the score, with a missing score counting as 0; the call id is
      the stem of `audio_file`, which falls back to the entry's key when missing. */
  lemma PlanCallRules(key: string, members: seq<(string, Json)>, threshold: int)
    requires PlanCall(key, Object(members), threshold).Some?
    ensures var p := PlanCall(key, Object(members), threshold).value;
      && ScoreOf(members).Some?
      && (p.bucket == NeedsAttention <==> ScoreOf(members).value < threshold)
      && (Lookup(members, "score") == None ==> p.bucket == BucketFor(0, threshold))
      && (Lookup(members, "audio_file") == None ==> p.audioName == key && p.callId == Stem(Name(key)))
      && (forall a :: Lookup(members, "audio_file") == Some(Str(a)) ==> p.audioName == a && p.callId == Stem(Name(a)))
  {
    if Lookup(members, "score") == None {
      ToIntOfInt(0);
    }
  }

  /** Python refuses an entry whose payload is not an object or whose score is not a
      number, or is a number `int()` cannot convert: `NaN` or an infinity. */
  lemma PlanCallRefuses(key: string, payload: Json, threshold: int)
    ensures !payload.Object? ==> PlanCall(key, payload, threshold) == None
    ensures payload.Object? && Lookup(payload.members, "score") == Some(Null) ==> PlanCall(key, payload, threshold) == None
    ensures payload.Object? && Lookup(payload.members, "score") in {Some(NaN), Some(Infinity(false)), Some(Infinity(true))} ==>
      PlanCall(key, payload, threshold) == None
  {
  }

  /** The steps `PlanCall` takes: each check in turn, in the order Python meets them. */
  lemma PlanCallSteps(key: string, payload: Json, threshold: int)
    ensures !payload.Object? ==> PlanCall(key, payload, threshold) == None
    ensures payload.Object? && ScoreOf(payload.members).None? ==> PlanCall(key, payload, threshold) == None
    ensures payload.Object? && !Get(payload.members, "audio_file", Str(key)).Str? ==> PlanCall(key, payload, threshold) == None
    ensures payload.Object? && ScoreOf(payload.members).Some? && Get(payload.members, "audio_file", Str(key)).Str? ==>
      var audio := Get(payload.members, "audio_file", Str(key)).s;
      PlanCall(key, payload, threshold) == Some(CallPlan(key, payload, BucketFor(ScoreOf(payload.members).value, threshold), Stem(Name(audio)), audio))
  {
  }

  function CallDir(p: CallPlan): string {
    BucketDir(p.bucket) + "/" + p.callId
  }

  function ResultPath(p: CallPlan): string {
    CallDir(p) + "/" + ResultsFile
  }

  /** Copies `<callId><suffix>` for each suffix from the folder into `dir`. */
  function CopyCompanions(fs: Folder, callId: string, dir: string, suffixes: seq<string>): Folder
    decreases |suffixes|
  {
    if suffixes == [] then fs
    else
      var name := callId + suffixes[0];
      CopyCompanions(Copy(fs, name, dir + "/" + name), callId, dir, suffixes[1..])
  }

  /** The effect of one entry: copy its audio, copy its companions, write its own results file. */
  function ApplyCall(fs: Folder, p: CallPlan): Folder {
    var withAudio := Copy(fs, p.audioName, CallDir(p) + "/" + Name(p.audioName));
    var withCompanions := CopyCompanions(withAudio, p.callId, CallDir(p), CompanionSuffixes);
    withCompanions[ResultPath(p) := Doc(Object([(p.key, p.payload)]))]
  }

  /** The folder after organising, and whether organising ran to its end (false where Python raises). */
  datatype Outcome = Outcome(folder: Folder, completed: bool)

  function ApplyAll(fs: Folder, items: seq<(string, Json)>, threshold: int): Outcome
    decreases |items|
  {
    if items == [] then Outcome(fs, true)
    else
      match PlanCall(items[0].0, items[0].1, threshold)
      case None => Outcome(fs, false)
      case Some(p) => ApplyAll(ApplyCall(fs, p), items[1..], threshold)
  }

  /** Unfolds `ApplyAll` at the `i`-th entry. */
  lemma ApplyAllStep(fs: Folder, items: seq<(string, Json)>, threshold: int, i: nat)
    requires i < |items|
    ensures ApplyAll(fs, items[i..], threshold) ==
      match PlanCall(items[i].0, items[i].1, threshold)
      case None => Outcome(fs, false)
      case Some(p) => ApplyAll(ApplyCall(fs, p), items[i + 1..], threshold)
  {
    assert items[i..][0] == items[i] && items[i..][1..] == items[i + 1..];
  }

  /** The whole of `organise_results`: nothing happens without a results file; a results
      file that does not parse, or parses to something other than an object, raises. */
  function Organise(fs: Folder, threshold: int, parse: string -> Option<Json>): Outcome {
    if ResultsFile !in fs then Outcome(fs, true)
    else
      match Loaded(fs, parse)
      case Some(Object(m)) => ApplyAll(fs, Items(m), threshold)
      case _ => Outcome(fs, false)
  }

  /** What `json.load` gives for the folder's results file, `None` where it raises. */
  function Loaded(fs: Folder, parse: string -> Option<Json>): Option<Json>
    requires ResultsFile in fs
  {
    match fs[ResultsFile]
    case Doc(d) => Some(d)
    case Text(t) => parse(t)
  }

  /** A path inside one of the two bucket directories. */
  predicate InBucket(path: string) {
    StartsWith(path, "needs_further_attention/") || StartsWith(path, "reviewed/")
  }

  lemma CallDirInBucket(p: CallPlan, rest: string)
    ensures InBucket(CallDir(p) + rest)
  {
    var d := BucketDir(p.bucket) + "/";
    assert CallDir(p) + rest == d + (p.callId + rest);
    assert (d + (p.callId + rest))[..|d|] == d;
  }

  /** Copying into the bucket keeps every file and changes none outside the buckets. */
  ghost predicate Preserves(before: Folder, after: Folder) {
    && (forall path | path in before :: path in after)
    && (forall path | path in before && !InBucket(path) :: after[path] == before[path])
  }

  lemma PreservesTransitive(a: Folder, b: Folder, c: Folder)
    requires Preserves(a, b) && Preserves(b, c)
    ensures Preserves(a, c)
  {
  }

  lemma StorePreserves(fs: Folder, dst: string, f: FileContent)
    requires InBucket(dst)
    ensures Preserves(fs, fs[dst := f])
  {
  }

  lemma CopyPreserves(fs: Folder, src: string, dst: string)
    requires InBucket(dst)
    ensures Preserves(fs, Copy(fs, src, dst))
  {
    if src in fs {
      StorePreserves(fs, dst, fs[src]);
    }
  }

  lemma {:induction false} CopyCompanionsPreserves(fs: Folder, p: CallPlan, suffixes: seq<string>)
    ensures Preserves(fs, CopyCompanions(fs, p.callId, CallDir(p), suffixes))
    decreases |suffixes|
  {
    if suffixes != [] {
      var name := p.callId + suffixes[0];
      var next := Copy(fs, name, CallDir(p) + "/" + name);
      CallDirInBucket(p, "/" + name);
      assert CallDir(p) + "/" + name == CallDir(p) + ("/" + name);
      CopyPreserves(fs, name, CallDir(p) + "/" + name);
      CopyCompanionsPreserves(next, p, suffixes[1..]);
      PreservesTransitive(fs, next, CopyCompanions(next, p.callId, CallDir(p), suffixes[1..]));
    }
  }

  lemma AudioCopyPreserves(fs: Folder, p: CallPlan)
    ensures Preserves(fs, Copy(fs, p.audioName, CallDir(p) + "/" + Name(p.audioName)))
  {
    CallDirInBucket(p, "/" + Name(p.audioName));
    assert CallDir(p) + "/" + Name(p.audioName) == CallDir(p) + ("/" + Name(p.audioName));
    CopyPreserves(fs, p.audioName, CallDir(p) + "/" + Name(p.audioName));
  }

  lemma ResultWritePreserves(fs: Folder, p: CallPlan)
    ensures Preserves(fs, fs[ResultPath(p) := Doc(Object([(p.key, p.payload)]))])
  {
    CallDirInBucket(p, "/" + ResultsFile);
    assert ResultPath(p) == CallDir(p) + ("/" + ResultsFile);
    StorePreserves(fs, ResultPath(p), Doc(Object([(p.key, p.payload)])));
  }

  /** One entry only adds or overwrites files inside its bucket. */
  lemma ApplyCallPreserves(fs: Folder, p: CallPlan)
    ensures Preserves(fs, ApplyCall(fs, p))
  {
    var withAudio := Copy(fs, p.audioName, CallDir(p) + "/" + Name(p.audioName));
    var withCompanions := CopyCompanions(withAudio, p.callId, CallDir(p), CompanionSuffixes);
    AudioCopyPreserves(fs, p);
    CopyCompanionsPreserves(withAudio, p, CompanionSuffixes);
    PreservesTransitive(fs, withAudio, withCompanions);
    ResultWritePreserves(withCompanions, p);
    PreservesTransitive(fs, withCompanions, ApplyCall(fs, p));
  }

  lemma {:induction false} ApplyAllPreserves(fs: Folder, items: seq<(string, Json)>, threshold: int)
    ensures Preserves(fs, ApplyAll(fs, items, threshold).folder)
    decreases |items|
  {
    if items != [] {
      match PlanCall(items[0].0, items[0].1, threshold)
      case None =>
      case Some(p) =>
        ApplyCallPreserves(fs, p);
        ApplyAllPreserves(ApplyCall(fs, p), items[1..], threshold);
        PreservesTransitive(fs, ApplyCall(fs, p), ApplyAll(ApplyCall(fs, p), items[1..], threshold).folder);
    }
  }

  /** Organising copies and never moves: every file is still there afterwards, and every
      file outside the two buckets (the results file and the originals included) is unchanged. */
  lemma OrganiseCopies(fs: Folder, threshold: int, parse: string -> Option<Json>)
    ensures Preserves(fs, Organise(fs, threshold, parse).folder)
    ensures ResultsFile !in fs ==> Organise(fs, threshold, parse) == Outcome(fs, true)
  {
    if ResultsFile in fs {
      var loaded := Loaded(fs, parse);
      if loaded.Some? && loaded.value.Object? {
        ApplyAllPreserves(fs, Items(loaded.value.members), threshold);
      }
    }
  }

  /** `f` and `g` hold the same files outside the two buckets. */
  ghost predicate SameOutside(f: Folder, g: Folder) {
    forall path | !InBucket(path) :: (path in f <==> path in g) && (path in f ==> f[path] == g[path])
  }

  /** A plain file name is not inside a bucket. */
  lemma PlainOutside(name: string)
    requires NoSlash(name)
    ensures !InBucket(name)
  {
    if |name| >= 9 {
      assert name[..9][8] == name[8] != '/';
    }
    if |name| >= 24 {
      assert name[..24][23] == name[23] != '/';
    }
  }

  /** The call id of a planned entry is a plain name. */
  lemma PlanCallPlain(key: string, payload: Json, threshold: int)
    requires PlanCall(key, payload, threshold).Some?
    ensures NoSlash(PlanCall(key, payload, threshold).value.callId)
  {
    var n := Name(PlanCall(key, payload, threshold).value.audioName);
    var stem := Stem(n);
    forall i | 0 <= i < |stem| ensures stem[i] != '/' {
      assert stem[i] == n[i];
    }
  }

  /** The files the companions copy, read from `src`, keyed by where they land. */
  function CompanionWrites(src: Folder, callId: string, dir: string, suffixes: seq<string>): map<string, FileContent>
    decreases |suffixes|
  {
    if suffixes == [] then map[]
    else
      var name := callId + suffixes[0];
      (if name in src then map[dir + "/" + name := src[name]] else map[])
        + CompanionWrites(src, callId, dir, suffixes[1..])
  }

  /** Every file one entry writes, with what it holds, the reads taken from `src`. */
  function Writes(src: Folder, p: CallPlan): map<string, FileContent> {
    (if p.audioName in src then map[CallDir(p) + "/" + Name(p.audioName) := src[p.audioName]] else map[])
      + CompanionWrites(src, p.callId, CallDir(p), CompanionSuffixes)
      + map[ResultPath(p) := Doc(Object([(p.key, p.payload)]))]
  }

  lemma UnionAssociative<K, V>(a: map<K, V>, b: map<K, V>, c: map<K, V>)
    ensures (a + b) + c == a + (b + c)
  {
  }

  /** `f` and `g` hold the same companion sources. */
  ghost predicate SameCompanions(f: Folder, g: Folder, callId: string, suffixes: seq<string>) {
    forall k | 0 <= k < |suffixes| ::
      (callId + suffixes[k] in f <==> callId + suffixes[k] in g)
      && (callId + suffixes[k] in f ==> f[callId + suffixes[k]] == g[callId + suffixes[k]])
  }

  /** Copying the companions adds their writes, as long as no copy overwrites a source. */
  lemma {:induction false} CopyCompanionsWrites(g: Folder, src: Folder, callId: string, dir: string, suffixes: seq<string>)
    requires NoSlash(callId) && forall k | 0 <= k < |suffixes| :: NoSlash(suffixes[k])
    requires SameCompanions(g, src, callId, suffixes)
    ensures CopyCompanions(g, callId, dir, suffixes) == g + CompanionWrites(src, callId, dir, suffixes)
    decreases |suffixes|
  {
    if suffixes != [] {
      var name := callId + suffixes[0];
      var w: map<string, FileContent> := if name in src then map[dir + "/" + name := src[name]] else map[];
      var next := Copy(g, name, dir + "/" + name);
      assert next == g + w;
      forall k | 0 <= k < |suffixes[1..]|
        ensures var n := callId + suffixes[1..][k];
          (n in next <==> n in src) && (n in next ==> next[n] == src[n])
      {
        assert suffixes[1..][k] == suffixes[k + 1];
        NoSlashConcat(callId, suffixes[k + 1]);
        NoSlashDiffers(callId + suffixes[k + 1], dir, name);
      }
      CopyCompanionsWrites(next, src, callId, dir, suffixes[1..]);
      UnionAssociative(g, w, CompanionWrites(src, callId, dir, suffixes[1..]));
    }
  }

  /** Copying the audio file leaves every companion source as it was. */
  lemma AudioKeepsCompanions(fs: Folder, p: CallPlan)
    requires NoSlash(p.callId)
    ensures SameCompanions(Copy(fs, p.audioName, CallDir(p) + "/" + Name(p.audioName)), fs, p.callId, CompanionSuffixes)
  {
    CompanionSuffixesPlain();
    forall k | 0 <= k < |CompanionSuffixes|
      ensures p.callId + CompanionSuffixes[k] != CallDir(p) + "/" + Name(p.audioName)
    {
      NoSlashConcat(p.callId, CompanionSuffixes[k]);
      NoSlashDiffers(p.callId + CompanionSuffixes[k], CallDir(p), Name(p.audioName));
    }
  }

  lemma UpdateUnion<K, V>(m: map<K, V>, k: K, v: V)
    ensures m[k := v] == m + map[k := v]
  {
  }

  /** One entry adds its writes to the folder. */
  lemma ApplyCallWrites(fs: Folder, p: CallPlan)
    requires NoSlash(p.callId)
    ensures ApplyCall(fs, p) == fs + Writes(fs, p)
  {
    var dst := CallDir(p) + "/" + Name(p.audioName);
    var a: map<string, FileContent> := if p.audioName in fs then map[dst := fs[p.audioName]] else map[];
    var withAudio := Copy(fs, p.audioName, dst);
    if p.audioName in fs {
      UpdateUnion(fs, dst, fs[p.audioName]);
    }
    assert withAudio == fs + a;
    AudioKeepsCompanions(fs, p);
    CompanionSuffixesPlain();
    var c := CompanionWrites(fs, p.callId, CallDir(p), CompanionSuffixes);
    CopyCompanionsWrites(withAudio, fs, p.callId, CallDir(p), CompanionSuffixes);
    var withCompanions := CopyCompanions(withAudio, p.callId, CallDir(p), CompanionSuffixes);
    var doc := Doc(Object([(p.key, p.payload)]));
    UpdateUnion(withCompanions, ResultPath(p), doc);
    var r: map<string, FileContent> := map[ResultPath(p) := doc];
    UnionAssociative(fs, a, c);
    UnionAssociative(fs, a + c, r);
  }

  /** The companion writes read only the companion sources. */
  lemma {:induction false} CompanionWritesSources(f: Folder, g: Folder, callId: string, dir: string, suffixes: seq<string>)
    requires SameCompanions(f, g, callId, suffixes)
    ensures CompanionWrites(f, callId, dir, suffixes) == CompanionWrites(g, callId, dir, suffixes)
    decreases |suffixes|
  {
    if suffixes != [] {
      assert forall k | 0 <= k < |suffixes[1..]| :: suffixes[1..][k] == suffixes[k + 1];
      CompanionWritesSources(f, g, callId, dir, suffixes[1..]);
    }
  }

  /** The writes of an entry read only files outside the buckets. */
  lemma WritesOutside(f: Folder, g: Folder, p: CallPlan)
    requires SameOutside(f, g) && NoSlash(p.callId) && !InBucket(p.audioName)
    ensures Writes(f, p) == Writes(g, p)
  {
    CompanionSuffixesPlain();
    forall k | 0 <= k < |CompanionSuffixes|
      ensures !InBucket(p.callId + CompanionSuffixes[k])
    {
      NoSlashConcat(p.callId, CompanionSuffixes[k]);
      PlainOutside(p.callId + CompanionSuffixes[k]);
    }
    CompanionWritesSources(f, g, p.callId, CallDir(p), CompanionSuffixes);
  }

  lemma {:induction false} CompanionWritesInBucket(src: Folder, p: CallPlan, suffixes: seq<string>)
    ensures forall path | path in CompanionWrites(src, p.callId, CallDir(p), suffixes) :: InBucket(path)
    decreases |suffixes|
  {
    if suffixes != [] {
      var name := p.callId + suffixes[0];
      assert CallDir(p) + "/" + name == CallDir(p) + ("/" + name);
      CallDirInBucket(p, "/" + name);
      CompanionWritesInBucket(src, p, suffixes[1..]);
    }
  }

  /** An entry writes only inside its bucket. */
  lemma WritesInBucket(src: Folder, p: CallPlan)
    ensures forall path | path in Writes(src, p) :: InBucket(path)
  {
    assert CallDir(p) + "/" + Name(p.audioName) == CallDir(p) + ("/" + Name(p.audioName));
    CallDirInBucket(p, "/" + Name(p.audioName));
    assert ResultPath(p) == CallDir(p) + ("/" + ResultsFile);
    CallDirInBucket(p, "/" + ResultsFile);
    CompanionWritesInBucket(src, p, CompanionSuffixes);
  }

  /** Every planned entry's audio file lies outside the buckets. */
  ghost predicate AudioOutside(items: seq<(string, Json)>, threshold: int) {
    forall i | 0 <= i < |items| :: PlanCall(items[i].0, items[i].1, threshold).Some? ==>
      !InBucket(PlanCall(items[i].0, items[i].1, threshold).value.audioName)
  }

  /** The writes of the entries up to the first one Python refuses, every read taken from `base`. */
  function AllWrites(base: Folder, items: seq<(string, Json)>, threshold: int): map<string, FileContent>
    decreases |items|
  {
    if items == [] then map[]
    else
      match PlanCall(items[0].0, items[0].1, threshold)
      case None => map[]
      case Some(p) => Writes(base, p) + AllWrites(base, items[1..], threshold)
  }

  /** Whether every entry is planned: organising runs to its end. */
  function AllPlanned(items: seq<(string, Json)>, threshold: int): bool
    decreases |items|
  {
    items == [] || (PlanCall(items[0].0, items[0].1, threshold).Some? && AllPlanned(items[1..], threshold))
  }

  lemma {:induction false} AllWritesInBucket(base: Folder, items: seq<(string, Json)>, threshold: int)
    ensures forall path | path in AllWrites(base, items, threshold) :: InBucket(path)
    decreases |items|
  {
    if items != [] {
      match PlanCall(items[0].0, items[0].1, threshold)
      case None =>
      case Some(p) =>
        WritesInBucket(base, p);
        AllWritesInBucket(base, items[1..], threshold);
    }
  }

  /** Organising the entries adds their writes; the reads see the files outside the buckets,
      which the writes never change. */
  lemma {:induction false} ApplyAllWrites(g: Folder, base: Folder, items: seq<(string, Json)>, threshold: int)
    requires SameOutside(g, base) && AudioOutside(items, threshold)
    ensures ApplyAll(g, items, threshold) == Outcome(g + AllWrites(base, items, threshold), AllPlanned(items, threshold))
    decreases |items|
  {
    if items != [] {
      match PlanCall(items[0].0, items[0].1, threshold)
      case None =>
      case Some(p) =>
        PlanCallPlain(items[0].0, items[0].1, threshold);
        ApplyCallWrites(g, p);
        WritesOutside(g, base, p);
        WritesInBucket(base, p);
        var w := Writes(base, p);
        var next := g + w;
        assert SameOutside(next, base);
        assert AudioOutside(items[1..], threshold) by {
          assert forall i | 0 <= i < |items[1..]| :: items[1..][i] == items[i + 1];
        }
        ApplyAllWrites(next, base, items[1..], threshold);
        UnionAssociative(g, w, AllWrites(base, items[1..], threshold));
    }
  }

  /** Writes inside the buckets leave the files outside them as they were. */
  lemma BucketWritesOutside(fs: Folder, w: map<string, FileContent>)
    requires forall path | path in w :: InBucket(path)
    ensures SameOutside(fs + w, fs)
  {
  }

  /** Applying the entries a second time repeats the same writes. */
  lemma ApplyAllIdempotent(fs: Folder, items: seq<(string, Json)>, threshold: int)
    requires AudioOutside(items, threshold)
    ensures ApplyAll(ApplyAll(fs, items, threshold).folder, items, threshold) == ApplyAll(fs, items, threshold)
  {
    var w := AllWrites(fs, items, threshold);
    ApplyAllWrites(fs, fs, items, threshold);
    AllWritesInBucket(fs, items, threshold);
    BucketWritesOutside(fs, w);
    ApplyAllWrites(fs + w, fs, items, threshold);
    UnionAssociative(fs, w, w);
    assert w + w == w;
  }

  /** The entries never touch the results file they come from. */
  lemma ResultsFileKept(fs: Folder, items: seq<(string, Json)>, threshold: int)
    requires ResultsFile in fs
    ensures ResultsFile in ApplyAll(fs, items, threshold).folder
    ensures ApplyAll(fs, items, threshold).folder[ResultsFile] == fs[ResultsFile]
  {
    ApplyAllPreserves(fs, items, threshold);
    PlainOutside(ResultsFile);
  }

  /** Organising a second time changes nothing, as long as no entry's audio file lies
      inside a bucket: the writes read only files outside the buckets and the second run
      repeats them. */
  lemma OrganiseIdempotent(fs: Folder, threshold: int, parse: string -> Option<Json>)
    requires ResultsFile in fs && Loaded(fs, parse).Some? && Loaded(fs, parse).value.Object? ==>
      AudioOutside(Items(Loaded(fs, parse).value.members), threshold)
    ensures Organise(Organise(fs, threshold, parse).folder, threshold, parse) == Organise(fs, threshold, parse)
  {
    if ResultsFile in fs && Loaded(fs, parse).Some? && Loaded(fs, parse).value.Object? {
      var items := Items(Loaded(fs, parse).value.members);
      var once := ApplyAll(fs, items, threshold);
      assert Organise(fs, threshold, parse) == once;
      ApplyAllIdempotent(fs, items, threshold);
      ResultsFileKept(fs, items, threshold);
      assert Loaded(once.folder, parse) == Loaded(fs, parse);
      assert Organise(once.folder, threshold, parse) == ApplyAll(once.folder, items, threshold);
    }
  }

  lemma {:induction false} CopyCompanionsKeepsOthers(fs: Folder, callId: string, dir: string, suffixes: seq<string>, path: string)
    requires forall k | 0 <= k < |suffixes| :: path != dir + "/" + callId + suffixes[k]
    ensures path in CopyCompanions(fs, callId, dir, suffixes) <==> path in fs
    ensures path in fs ==> CopyCompanions(fs, callId, dir, suffixes)[path] == fs[path]
    decreases |suffixes|
  {
    if suffixes != [] {
      var name := callId + suffixes[0];
      assert dir + "/" + name == dir + "/" + callId + suffixes[0];
      CopyCompanionsKeepsOthers(Copy(fs, name, dir + "/" + name), callId, dir, suffixes[1..], path);
    }
  }

  /** Two paths under the same prefix are equal only when their rests are. */
  lemma ConcatCancel(d: string, x: string, y: string)
    ensures d + x == d + y ==> x == y
  {
    if d + x == d + y {
      assert (d + x)[|d|..] == x;
      assert (d + y)[|d|..] == y;
    }
  }

  /** A plain file name is never a path inside a directory. */
  lemma NoSlashDiffers(a: string, d: string, rest: string)
    requires NoSlash(a)
    ensures a != d + "/" + rest
  {
    var x := d + "/" + rest;
    assert x[|d|] == '/';
  }

  lemma NoSlashConcat(a: string, b: string)
    requires NoSlash(a) && NoSlash(b)
    ensures NoSlash(a + b)
  {
  }

  /** The companion suffixes are plain and pairwise different. */
  lemma CompanionSuffixesPlain()
    ensures forall k | 0 <= k < |CompanionSuffixes| :: NoSlash(CompanionSuffixes[k])
    ensures forall j, k | 0 <= j < |CompanionSuffixes| && 0 <= k < |CompanionSuffixes| && j != k ::
      CompanionSuffixes[j] != CompanionSuffixes[k]
  {
  }

  /** The copy of a companion lands in the call's directory with the source's content,
      unless a later suffix writes the same destination. */
  lemma {:induction false} CopyCompanionsCopies(fs: Folder, callId: string, dir: string, suffixes: seq<string>, k: nat)
    requires k < |suffixes| && callId + suffixes[k] in fs
    requires forall j | 0 <= j < |suffixes| :: NoSlash(suffixes[j])
    requires forall j | 0 <= j < |suffixes| && j != k :: suffixes[j] != suffixes[k]
    requires NoSlash(callId)
    ensures var dst := dir + "/" + callId + suffixes[k];
      dst in CopyCompanions(fs, callId, dir, suffixes) && CopyCompanions(fs, callId, dir, suffixes)[dst] == fs[callId + suffixes[k]]
    decreases |suffixes|
  {
    var name := callId + suffixes[0];
    var next := Copy(fs, name, dir + "/" + name);
    var src := callId + suffixes[k];
    NoSlashConcat(callId, suffixes[k]);
    NoSlashDiffers(src, dir, name);
    assert src in next && next[src] == fs[src];
    if k == 0 {
      assert dir + "/" + name == dir + "/" + callId + suffixes[0];
      forall j | 0 <= j < |suffixes[1..]|
        ensures dir + "/" + callId + suffixes[0] != dir + "/" + callId + suffixes[1..][j]
      {
        assert suffixes[1..][j] == suffixes[j + 1];
        ConcatCancel(dir + "/" + callId, suffixes[0], suffixes[j + 1]);
      }
      CopyCompanionsKeepsOthers(next, callId, dir, suffixes[1..], dir + "/" + callId + suffixes[0]);
    } else {
      CopyCompanionsCopies(next, callId, dir, suffixes[1..], k - 1);
    }
  }

  /** An entry writes its own results file, holding just that entry. */
  lemma ApplyCallResult(fs: Folder, p: CallPlan)
    ensures ResultPath(p) in ApplyCall(fs, p)
    ensures ApplyCall(fs, p)[ResultPath(p)] == Doc(Object([(p.key, p.payload)]))
  {
  }

  /** An entry copies its audio file into the call's directory, under the audio file's
      name, unless a companion or the results file later writes the same name. */
  lemma ApplyCallAudio(fs: Folder, p: CallPlan)
    requires p.audioName in fs
    requires Name(p.audioName) != ResultsFile
    requires forall k | 0 <= k < |CompanionSuffixes| :: Name(p.audioName) != p.callId + CompanionSuffixes[k]
    ensures var out := CallDir(p) + "/" + Name(p.audioName);
      out in ApplyCall(fs, p) && ApplyCall(fs, p)[out] == fs[p.audioName]
  {
    var d := CallDir(p) + "/";
    var out := CallDir(p) + "/" + Name(p.audioName);
    var withAudio := Copy(fs, p.audioName, out);
    forall k | 0 <= k < |CompanionSuffixes|
      ensures out != CallDir(p) + "/" + p.callId + CompanionSuffixes[k]
    {
      Associative(d, p.callId, CompanionSuffixes[k]);
      ConcatCancel(d, Name(p.audioName), p.callId + CompanionSuffixes[k]);
    }
    CopyCompanionsKeepsOthers(withAudio, p.callId, CallDir(p), CompanionSuffixes, out);
    ConcatCancel(d, Name(p.audioName), ResultsFile);
    assert out != ResultPath(p);
  }

  /** An entry copies each companion it finds next to its results file. */
  lemma ApplyCallCompanion(fs: Folder, p: CallPlan, k: nat)
    requires NoSlash(p.callId)
    requires k < |CompanionSuffixes| && p.callId + CompanionSuffixes[k] in fs
    requires p.callId + CompanionSuffixes[k] != ResultsFile
    ensures var out := CallDir(p) + "/" + p.callId + CompanionSuffixes[k];
      out in ApplyCall(fs, p) && ApplyCall(fs, p)[out] == fs[p.callId + CompanionSuffixes[k]]
  {
    var src := p.callId + CompanionSuffixes[k];
    var dst := CallDir(p) + "/" + Name(p.audioName);
    var withAudio := Copy(fs, p.audioName, dst);
    CompanionSuffixesPlain();
    NoSlashConcat(p.callId, CompanionSuffixes[k]);
    NoSlashDiffers(src, CallDir(p), Name(p.audioName));
    assert src in withAudio && withAudio[src] == fs[src];
    CopyCompanionsCopies(withAudio, p.callId, CallDir(p), CompanionSuffixes, k);
    var d := CallDir(p) + "/";
    var out := CallDir(p) + "/" + p.callId + CompanionSuffixes[k];
    Associative(d, p.callId, CompanionSuffixes[k]);
    ConcatCancel(d, src, ResultsFile);
    assert out != ResultPath(p);
  }

  /** The speaker folders of the run, each a folder map, keyed by the folder's name. */
  type Folders = map<string, Folder>

  /** The folders after organising, and the folder whose organising raised, if any. */
  datatype Organised = Organised(folders: Folders, failed: Option<string>)

  /** The last loop of `run`: organise the folders in order, stopping at the first that raises.
      A folder absent from the map has no results file and is skipped. */
  function OrganiseEach(folders: Folders, names: seq<string>, threshold: int, parse: string -> Option<Json>): Organised
    decreases |names|
  {
    if names == [] then Organised(folders, None)
    else if names[0] !in folders then OrganiseEach(folders, names[1..], threshold, parse)
    else
      var o := Organise(folders[names[0]], threshold, parse);
      var next := folders[names[0] := o.folder];
      if !o.completed then Organised(next, Some(names[0]))
      else OrganiseEach(next, names[1..], threshold, parse)
  }

  /** Organising every folder keeps the set of folders, keeps each folder's files, and
      names as failed only one of the folders it was given. */
  lemma {:induction false} OrganiseEachPreserves(folders: Folders, names: seq<string>, threshold: int, parse: string -> Option<Json>)
    ensures var r := OrganiseEach(folders, names, threshold, parse);
      && r.folders.Keys == folders.Keys
      && (forall n | n in folders :: Preserves(folders[n], r.folders[n]))
      && (r.failed.Some? ==> r.failed.value in names)
      && (forall n | n in folders && n !in names :: r.folders[n] == folders[n])
    decreases |names|
  {
    if names != [] {
      var rest := names[1..];
      if names[0] !in folders {
        OrganiseEachPreserves(folders, rest, threshold, parse);
      } else {
        var o := Organise(folders[names[0]], threshold, parse);
        var next := folders[names[0] := o.folder];
        OrganiseCopies(folders[names[0]], threshold, parse);
        if o.completed {
          OrganiseEachPreserves(next, rest, threshold, parse);
          var r := OrganiseEach(next, rest, threshold, parse);
          forall n | n in folders ensures Preserves(folders[n], r.folders[n]) {
            PreservesTransitive(folders[n], next[n], r.folders[n]);
          }
        }
      }
    }
  }
}
