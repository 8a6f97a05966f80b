/** The scheduler side of the pipeline (submit_slurm.py), as rules over plain values:
    which entries of the base directory are speaker folders, what header each job
    script carries, how the job id is read from the `sbatch` reply, which ids are
    tracked, and which jobs the monitor still counts as running. */
module SlurmJobs {
  import opened Optional
  import opened Strings
  import opened JsonValues
  import opened PurePaths

  /** File suffixes (compared lower-cased) that mark a folder as holding calls. */
  const AudioExtensions: seq<string> := [".mp3", ".wav", ".m4a", ".flac", ".ogg", ".wmv", ".avi", ".mp4"]
  const DefaultScoreThreshold: int := 75
  const DefaultPartition: string := "gpu-rtx6k"
  const DefaultJobTime: string := "02:00:00"

  // ------------------------------------------------------------------ discovery

  /** One entry of the base directory: its name, whether it is a directory, and the
      relative paths of everything beneath it at any depth (what `rglob("*")` yields). */
  datatype Entry = Entry(name: string, isDir: bool, descendants: seq<string>)

  predicate IsAudioPath(p: string) {
    Lower(Suffix(Name(p))) in AudioExtensions
  }

  predicate HoldsAudio(e: Entry) {
    exists k | 0 <= k < |e.descendants| :: IsAudioPath(e.descendants[k])
  }

  /** A visible directory with at least one audio file somewhere below it. */
  predicate IsSpeakerFolder(e: Entry) {
    e.isDir && !StartsWith(e.name, ".") && HoldsAudio(e)
  }

  function EntryName(e: Entry): string {
    e.name
  }

  /** Entries of one directory never share a name. */
  ghost predicate DistinctNames(listing: seq<Entry>) {
    DistinctKeys(listing, EntryName)
  }

  /** The folders discovery keeps: the speaker folders of the listing sorted by name. */
  function SpeakerFolders(listing: seq<Entry>): seq<string> {
    KeysWhere(SortBy(listing, EntryName), IsSpeakerFolder, EntryName)
  }

  /** Discovery keeps exactly the speaker folders of the listing. */
  lemma SpeakerFoldersExact(listing: seq<Entry>, n: string)
    ensures n in SpeakerFolders(listing) <==> exists e | e in listing :: IsSpeakerFolder(e) && e.name == n
  {
    var sorted := SortBy(listing, EntryName);
    KeysWhereMembership(sorted, IsSpeakerFolder, EntryName, n);
    if n in SpeakerFolders(listing) {
      var k :| 0 <= k < |sorted| && IsSpeakerFolder(sorted[k]) && sorted[k].name == n;
      assert sorted[k] in multiset(sorted);
    }
    if exists e | e in listing :: IsSpeakerFolder(e) && e.name == n {
      var e :| e in listing && IsSpeakerFolder(e) && e.name == n;
      assert e in multiset(listing);
      assert e in sorted;
    }
  }

  /** The discovered folders come out in strictly increasing name order, so no folder twice. */
  lemma SpeakerFoldersIncreasing(listing: seq<Entry>)
    requires DistinctNames(listing)
    ensures StrictlyIncreasing(SpeakerFolders(listing))
  {
    SortByStrict(listing, EntryName);
    KeysWhereIncreasing(SortBy(listing, EntryName), IsSpeakerFolder, EntryName);
  }

  // ------------------------------------------------------------------ job script header

  /** The part of `ContainerConfig` that the job header uses. */
  datatype Config = Config(
    partition: string,
    gpusPerJob: int,
    memGb: int,
    timeLimit: string,
    account: Option<string>,
    qos: Option<string>)

  function JobName(folder: string): string {
    folder + "_pipeline"
  }

  function ScriptPath(baseDir: string, folder: string): string {
    PathJoin(baseDir, JobName(folder) + ".slurm")
  }

  /** Where the scheduler writes the job's output (`ext` is ".out" or ".err"). */
  function LogPath(baseDir: string, folder: string, ext: string): string {
    baseDir + "/logs/" + JobName(folder) + "_%j" + ext
  }

  /** The QoS the header requests: an explicit one, else one derived from the account
      for a `gpu-` partition, else none. */
  function Qos(cfg: Config): Option<string> {
    if Truthy(cfg.qos) then cfg.qos
    else if Truthy(cfg.account) && StartsWith(cfg.partition, "gpu-") then
      Some(cfg.account.value + "-gpu-" + Replace(cfg.partition, "gpu-", ""))
    else None
  }

  /** An explicit QoS wins whatever the account and the partition. */
  lemma ExplicitQosWins(cfg: Config, account: Option<string>, partition: string)
    requires Truthy(cfg.qos)
    ensures Qos(cfg) == Qos(cfg.(account := account, partition := partition)) == cfg.qos
  {
  }

  /** With no explicit QoS, an account and a `gpu-<type>` partition give `<account>-gpu-<type>`. */
  lemma DerivedQos(cfg: Config, gpuType: string)
    requires !Truthy(cfg.qos) && Truthy(cfg.account)
    requires cfg.partition == "gpu-" + gpuType && !Contains(gpuType, "gpu-")
    ensures Qos(cfg) == Some(cfg.account.value + "-gpu-" + gpuType)
  {
    var p := cfg.partition;
    assert p[..4] == "gpu-" && p[4..] == gpuType;
    ReplaceAbsent(gpuType, "gpu-", "");
    assert Replace(p, "gpu-", "") == "" + Replace(p[4..], "gpu-", "");
    assert "" + gpuType == gpuType;
  }

  /** Without an explicit QoS the header requests one only for an account on a `gpu-` partition. */
  lemma QosRequiresAccount(cfg: Config)
    requires !Truthy(cfg.qos)
    ensures Qos(cfg).Some? <==> Truthy(cfg.account) && StartsWith(cfg.partition, "gpu-")
  {
  }

  /** One line of the header of a job script. */
  datatype HeaderLine = Shebang | Directive(option: string, value: string) | Blank

  function DirectivePrefix(option: string): string {
    "#SBATCH --" + option + "="
  }

  function Render(h: HeaderLine): string {
    match h
    case Shebang => "#!/bin/bash"
    case Directive(o, v) => DirectivePrefix(o) + v
    case Blank => ""
  }

  function AccountLine(cfg: Config): HeaderLine {
    if Truthy(cfg.account) then Directive("account", cfg.account.value) else Blank
  }

  function QosLine(cfg: Config): HeaderLine {
    match Qos(cfg)
    case Some(q) => Directive("qos", q)
    case None => Blank
  }

  /** The account line carries a directive exactly when an account is configured. */
  lemma AccountLinePresent(cfg: Config)
    ensures Render(AccountLine(cfg)) != "" <==> Truthy(cfg.account)
  {
  }

  /** The header lines of the job script for one speaker folder. */
  function Header(baseDir: string, folder: string, cfg: Config): seq<HeaderLine> {
    [ Shebang,
      Directive("job-name", JobName(folder)),
      Directive("partition", cfg.partition),
      Directive("nodes", "1"),
      Directive("cpus-per-task", "4"),
      Directive("gpus", ShowInt(cfg.gpusPerJob)),
      Directive("mem", ShowInt(cfg.memGb) + "G"),
      Directive("time", cfg.timeLimit),
      Directive("output", LogPath(baseDir, folder, ".out")),
      Directive("error", LogPath(baseDir, folder, ".err")),
      Directive("mail-type", "END,FAIL"),
      AccountLine(cfg),
      QosLine(cfg) ]
  }

  function Lines(hs: seq<HeaderLine>): (r: seq<string>)
    ensures |r| == |hs| && forall j | 0 <= j < |hs| :: r[j] == Render(hs[j])
  {
    seq(|hs|, j requires 0 <= j < |hs| => Render(hs[j]))
  }

  /** The value the scheduler reads for `--option`: the rest of the first line that
      starts with `#SBATCH --option=`. */
  function ReadDirective(lines: seq<string>, option: string): Option<string> {
    if lines == [] then None
    else if StartsWith(lines[0], DirectivePrefix(option)) then Some(lines[0][|DirectivePrefix(option)|..])
    else ReadDirective(lines[1..], option)
  }

  /** An option name as the header uses them: not empty and without `=`. */
  predicate PlainOption(o: string) {
    o != [] && '=' !in o
  }

  /** The characters of a directive line after `#SBATCH --`: the option, then `=`. */
  lemma DirectiveChar(o: string, v: string, i: nat)
    requires i <= |o|
    ensures (DirectivePrefix(o) + v)[10 + i] == if i < |o| then o[i] else '='
  {
  }

  /** A line that is not a directive for `option` is not read as one. */
  lemma OtherLineSkipped(h: HeaderLine, option: string)
    requires PlainOption(option)
    requires h.Directive? ==> PlainOption(h.option) && h.option != option
    ensures !StartsWith(Render(h), DirectivePrefix(option))
  {
    var p := DirectivePrefix(option);
    var line := Render(h);
    if h.Shebang? {
      assert line[1] != p[1];
    } else if h.Directive? {
      var o := h.option;
      var m: nat;
      if |o| < |option| {
        m := |o|;
      } else if |option| < |o| {
        m := |option|;
      } else {
        assert !(forall i | 0 <= i < |o| :: o[i] == option[i]);
        m :| m < |o| && o[m] != option[m];
      }
      DirectiveChar(o, h.value, m);
      DirectiveChar(option, "", m);
      assert p == p + "";
      if |p| <= |line| {
        assert line[..|p|][10 + m] != p[10 + m];
      }
    }
  }

  /** The first directive for `option` among well-formed lines is the one read back. */
  lemma {:induction false} ReadFirstDirective(hs: seq<HeaderLine>, option: string, k: nat)
    requires PlainOption(option) && k < |hs| && hs[k].Directive? && hs[k].option == option
    requires forall j | 0 <= j < k :: hs[j].Directive? ==> PlainOption(hs[j].option) && hs[j].option != option
    ensures ReadDirective(Lines(hs), option) == Some(hs[k].value)
  {
    var lines := Lines(hs);
    if k == 0 {
      assert lines[0] == DirectivePrefix(option) + hs[0].value;
      assert lines[0][..|DirectivePrefix(option)|] == DirectivePrefix(option);
    } else {
      OtherLineSkipped(hs[0], option);
      assert Lines(hs[1..]) == lines[1..];
      ReadFirstDirective(hs[1..], option, k - 1);
    }
  }

  /** Without a directive for `option`, nothing is read back. */
  lemma {:induction false} ReadMissingDirective(hs: seq<HeaderLine>, option: string)
    requires PlainOption(option)
    requires forall j | 0 <= j < |hs| :: hs[j].Directive? ==> PlainOption(hs[j].option) && hs[j].option != option
    ensures ReadDirective(Lines(hs), option) == None
  {
    if hs != [] {
      OtherLineSkipped(hs[0], option);
      assert Lines(hs[1..]) == Lines(hs)[1..];
      ReadMissingDirective(hs[1..], option);
    }
  }

  /** The option names a job header uses. */
  const OptionNames: seq<string> := ["job-name", "partition", "nodes", "cpus-per-task", "gpus", "mem",
    "time", "output", "error", "mail-type", "account", "qos"]

  lemma OptionNamesPlain()
    ensures forall o | o in OptionNames :: PlainOption(o)
  {
    assert PlainOption("job-name") && PlainOption("partition") && PlainOption("nodes");
    assert PlainOption("cpus-per-task") && PlainOption("gpus") && PlainOption("mem");
    assert PlainOption("time") && PlainOption("output") && PlainOption("error");
    assert PlainOption("mail-type") && PlainOption("account") && PlainOption("qos");
  }

  /** Every option name in a job header is plain. */
  lemma HeaderOptionsPlain(baseDir: string, folder: string, cfg: Config)
    ensures forall j | 0 <= j < |Header(baseDir, folder, cfg)| :: Header(baseDir, folder, cfg)[j].Directive? ==>
      PlainOption(Header(baseDir, folder, cfg)[j].option)
  {
    var hs := Header(baseDir, folder, cfg);
    OptionNamesPlain();
    forall j | 0 <= j < |hs| && hs[j].Directive? ensures hs[j].option in OptionNames {
    }
  }

  /** Reading the rendered header back gives the job name. */
  lemma HeaderJobName(baseDir: string, folder: string, cfg: Config)
    ensures ReadDirective(Lines(Header(baseDir, folder, cfg)), "job-name") == Some(JobName(folder))
  {
    HeaderOptionsPlain(baseDir, folder, cfg);
    ReadFirstDirective(Header(baseDir, folder, cfg), "job-name", 1);
  }

  /** Reading the rendered header back gives the two log paths. */
  lemma HeaderLogPaths(baseDir: string, folder: string, cfg: Config)
    ensures ReadDirective(Lines(Header(baseDir, folder, cfg)), "output") == Some(LogPath(baseDir, folder, ".out"))
    ensures ReadDirective(Lines(Header(baseDir, folder, cfg)), "error") == Some(LogPath(baseDir, folder, ".err"))
  {
    HeaderOutputPath(baseDir, folder, cfg);
    HeaderErrorPath(baseDir, folder, cfg);
  }

  lemma HeaderOutputPath(baseDir: string, folder: string, cfg: Config)
    ensures ReadDirective(Lines(Header(baseDir, folder, cfg)), "output") == Some(LogPath(baseDir, folder, ".out"))
  {
    HeaderOptionsPlain(baseDir, folder, cfg);
    ReadFirstDirective(Header(baseDir, folder, cfg), "output", 8);
  }

  lemma HeaderErrorPath(baseDir: string, folder: string, cfg: Config)
    ensures ReadDirective(Lines(Header(baseDir, folder, cfg)), "error") == Some(LogPath(baseDir, folder, ".err"))
  {
    HeaderOptionsPlain(baseDir, folder, cfg);
    ReadFirstDirective(Header(baseDir, folder, cfg), "error", 9);
  }

  /** Reading the rendered header back gives the account exactly when one is configured. */
  lemma HeaderAccount(baseDir: string, folder: string, cfg: Config)
    ensures ReadDirective(Lines(Header(baseDir, folder, cfg)), "account") ==
      (if Truthy(cfg.account) then cfg.account else None)
  {
    HeaderOptionsPlain(baseDir, folder, cfg);
    if Truthy(cfg.account) {
      ReadFirstDirective(Header(baseDir, folder, cfg), "account", 11);
    } else {
      ReadMissingDirective(Header(baseDir, folder, cfg), "account");
    }
  }

  /** Reading the rendered header back gives the outcome of the QoS rule. */
  lemma HeaderQos(baseDir: string, folder: string, cfg: Config)
    ensures ReadDirective(Lines(Header(baseDir, folder, cfg)), "qos") == Qos(cfg)
  {
    HeaderOptionsPlain(baseDir, folder, cfg);
    if Qos(cfg).Some? {
      ReadFirstDirective(Header(baseDir, folder, cfg), "qos", 12);
    } else {
      ReadMissingDirective(Header(baseDir, folder, cfg), "qos");
    }
  }

  /** The script file is named after the job, and its stem is the job name. */
  lemma ScriptNaming(baseDir: string, folder: string)
    requires folder != "" && NoSlash(folder)
    ensures Name(ScriptPath(baseDir, folder)) == JobName(folder) + ".slurm"
    ensures Stem(Name(ScriptPath(baseDir, folder))) == JobName(folder)
  {
    var n := JobName(folder) + ".slurm";
    assert n == folder + "_pipeline.slurm";
    assert NoSlash(n) by {
      forall i | 0 <= i < |n| ensures n[i] != '/' {
        if i < |folder| {
          assert n[i] == folder[i];
        }
      }
    }
    assert n != "." by {
      assert |n| > 1;
    }
    NameOfJoin(baseDir, n);
    AppendedExtension(JobName(folder), ".slurm");
  }

  // ------------------------------------------------------------------ submission

  /** What `sbatch` answered: its standard output on success, its error text otherwise. */
  datatype SbatchReply = Accepted(stdout: string) | Rejected(stderr: string)

  /** What `submit_slurm_job` gives back: an id, `None` after a rejection, or the
      `IndexError` raised when an accepted reply holds no word. */
  datatype Submission = JobId(id: string) | NotSubmitted | NoWord

  function ParseJobId(reply: SbatchReply): (r: Submission)
    ensures r.JobId? ==> r.id != "" && NoSpace(r.id)
  {
    match reply
    case Rejected(_) => NotSubmitted
    case Accepted(out) =>
      var words := Words(Strip(out));
      if words == [] then NoWord else JobId(words[|words| - 1])
  }

  /** A reply "<text> <id>" followed by white space yields the id, and only a
      rejection yields nothing. */
  lemma ParseJobIdFromReply(text: string, id: string, trailer: string)
    requires id != "" && NoSpace(id) && AllSpace(trailer)
    ensures ParseJobId(Accepted(text + " " + id + trailer)) == JobId(id)
    ensures forall e :: ParseJobId(Rejected(e)) == NotSubmitted
  {
    var out := text + " " + id + trailer;
    WordsStrip(out);
    WordsTrailing(text + " " + id, trailer);
    assert text + " " + id == text + [' '] + id + [];
    assert IsSpace(' ');
    WordsConcat(text, ' ', id);
    WordsSingle(id);
  }

  /** The outcome of the submission loop of `run`: the ids tracked, in folder order,
      and whether an accepted reply without a word aborted the run. */
  datatype Tracked = Tracked(ids: seq<string>, aborted: bool)

  /** The submission loop over `folders`, with `sbatch` giving the reply for each script path. */
  function SubmitAll(baseDir: string, folders: seq<string>, sbatch: string -> SbatchReply): Tracked {
    if folders == [] then Tracked([], false)
    else
      match ReplyFor(baseDir, folders[0], sbatch)
      case NoWord => Tracked([], true)
      case NotSubmitted => SubmitAll(baseDir, folders[1..], sbatch)
      case JobId(id) =>
        var rest := SubmitAll(baseDir, folders[1..], sbatch);
        Tracked([id] + rest.ids, rest.aborted)
  }

  function ReplyFor(baseDir: string, folder: string, sbatch: string -> SbatchReply): Submission {
    ParseJobId(sbatch(ScriptPath(baseDir, folder)))
  }

  /** Submitting two batches of folders one after the other tracks the ids of the first
      batch, then (unless it aborted) those of the second: ids keep folder order. */
  lemma {:induction false} SubmitAllAppend(baseDir: string, f1: seq<string>, f2: seq<string>, sbatch: string -> SbatchReply)
    ensures var a, b := SubmitAll(baseDir, f1, sbatch), SubmitAll(baseDir, f2, sbatch);
      SubmitAll(baseDir, f1 + f2, sbatch) == (if a.aborted then a else Tracked(a.ids + b.ids, b.aborted))
  {
    if f1 == [] {
      assert f1 + f2 == f2;
    } else {
      var f := f1 + f2;
      assert f[0] == f1[0];
      assert f[1..] == f1[1..] + f2;
      SubmitAllAppend(baseDir, f1[1..], f2, sbatch);
      var rest, b := SubmitAll(baseDir, f1[1..], sbatch), SubmitAll(baseDir, f2, sbatch);
      var reply := ReplyFor(baseDir, f1[0], sbatch);
      if reply.JobId? && !rest.aborted {
        Associative([reply.id], rest.ids, b.ids);
      }
    }
  }

  /** The tracking after one more reply, from tracking that has not stopped. */
  function Next(ids: seq<string>, reply: Submission): Tracked {
    match reply
    case NoWord => Tracked(ids, true)
    case NotSubmitted => Tracked(ids, false)
    case JobId(id) => Tracked(ids + [id], false)
  }

  lemma SubmitAllSnoc(baseDir: string, folders: seq<string>, i: nat, sbatch: string -> SbatchReply, ids: seq<string>)
    requires i < |folders| && SubmitAll(baseDir, folders[..i], sbatch) == Tracked(ids, false)
    ensures SubmitAll(baseDir, folders[..i + 1], sbatch) == Next(ids, ReplyFor(baseDir, folders[i], sbatch))
  {
    var pre, f := folders[..i], folders[i];
    assert folders[..i + 1] == pre + [f];
    SubmitAllAppend(baseDir, pre, [f], sbatch);
    SubmitAllSingle(baseDir, f, sbatch);
    var b := SubmitAll(baseDir, [f], sbatch);
    assert SubmitAll(baseDir, folders[..i + 1], sbatch) == Tracked(ids + b.ids, b.aborted);
    match ReplyFor(baseDir, f, sbatch) {
      case NoWord => assert ids + [] == ids;
      case NotSubmitted => assert ids + [] == ids;
      case JobId(id) =>
    }
  }

  /** A single folder is tracked like one reply from nothing. */
  lemma SubmitAllSingle(baseDir: string, f: string, sbatch: string -> SbatchReply)
    ensures SubmitAll(baseDir, [f], sbatch) == Next([], ReplyFor(baseDir, f, sbatch))
  {
    assert [f][1..] == [];
  }

  lemma SubmitAllStops(baseDir: string, folders: seq<string>, i: nat, sbatch: string -> SbatchReply)
    requires i < |folders| && SubmitAll(baseDir, folders[..i + 1], sbatch).aborted
    ensures SubmitAll(baseDir, folders, sbatch) == SubmitAll(baseDir, folders[..i + 1], sbatch)
  {
    SubmitAllAppend(baseDir, folders[..i + 1], folders[i + 1..], sbatch);
    assert folders[..i + 1] + folders[i + 1..] == folders;
  }

  /** Every tracked id came from an accepted reply. */
  lemma {:induction false} SubmitAllTracks(baseDir: string, folders: seq<string>, sbatch: string -> SbatchReply)
    ensures forall x | x in SubmitAll(baseDir, folders, sbatch).ids ::
      exists i | 0 <= i < |folders| :: ReplyFor(baseDir, folders[i], sbatch) == JobId(x)
  {
    if folders != [] {
      var rest := folders[1..];
      SubmitAllTracks(baseDir, rest, sbatch);
      var r := SubmitAll(baseDir, rest, sbatch);
      forall x | x in SubmitAll(baseDir, folders, sbatch).ids
        ensures exists i | 0 <= i < |folders| :: ReplyFor(baseDir, folders[i], sbatch) == JobId(x)
      {
        if x in r.ids {
          var i :| 0 <= i < |rest| && ReplyFor(baseDir, rest[i], sbatch) == JobId(x);
          assert folders[i + 1] == rest[i];
        }
      }
    }
  }

  /** The run aborts exactly when some reply holds no word. */
  lemma {:induction false} SubmitAllAborts(baseDir: string, folders: seq<string>, sbatch: string -> SbatchReply)
    ensures SubmitAll(baseDir, folders, sbatch).aborted <==>
      exists i | 0 <= i < |folders| :: ReplyFor(baseDir, folders[i], sbatch) == NoWord
  {
    if folders != [] {
      var rest := folders[1..];
      var head := ReplyFor(baseDir, folders[0], sbatch);
      if head == NoWord {
        assert SubmitAll(baseDir, folders, sbatch).aborted;
      } else {
        SubmitAllAborts(baseDir, rest, sbatch);
        assert SubmitAll(baseDir, folders, sbatch).aborted == SubmitAll(baseDir, rest, sbatch).aborted;
        assert forall i | 0 < i < |folders| :: folders[i] == rest[i - 1];
        assert (exists i | 0 <= i < |folders| :: ReplyFor(baseDir, folders[i], sbatch) == NoWord) <==>
          (exists i | 0 <= i < |rest| :: ReplyFor(baseDir, rest[i], sbatch) == NoWord);
      }
    }
  }


  /** Without an abort, every accepted job is tracked. */
  lemma {:induction false} SubmitAllComplete(baseDir: string, folders: seq<string>, sbatch: string -> SbatchReply)
    ensures !SubmitAll(baseDir, folders, sbatch).aborted ==>
      forall i | 0 <= i < |folders| :: ReplyFor(baseDir, folders[i], sbatch).JobId? ==>
        ReplyFor(baseDir, folders[i], sbatch).id in SubmitAll(baseDir, folders, sbatch).ids
  {
    if folders != [] {
      var rest := folders[1..];
      SubmitAllComplete(baseDir, rest, sbatch);
      var t := SubmitAll(baseDir, folders, sbatch);
      if !t.aborted {
        forall i | 0 <= i < |folders| && ReplyFor(baseDir, folders[i], sbatch).JobId?
          ensures ReplyFor(baseDir, folders[i], sbatch).id in t.ids
        {
          if i > 0 {
            assert rest[i - 1] == folders[i];
          }
        }
      }
    }
  }


  // ------------------------------------------------------------------ monitoring

  /** What `squeue -j <id> --noheader` gave for one job. */
  datatype Probe = Probe(returncode: int, stdout: string)

  /** A job counts as still running when its probe succeeded and printed something. */
  predicate StillQueued(p: Probe) {
    p.returncode == 0 && Strip(p.stdout) != ""
  }

  /** The jobs that one monitoring round still finds running, in tracking order. */
  function Remaining(jobs: seq<string>, probe: string -> Probe): (r: seq<string>)
    ensures |r| <= |jobs|
  {
    if jobs == [] then []
    else
      var last := jobs[|jobs| - 1];
      Remaining(jobs[..|jobs| - 1], probe) + (if StillQueued(probe(last)) then [last] else [])
  }

  /** A job remains exactly when it is tracked and its probe says it is still queued. */
  lemma {:induction false} RemainingMembership(jobs: seq<string>, probe: string -> Probe, j: string)
    ensures j in Remaining(jobs, probe) <==> j in jobs && StillQueued(probe(j))
  {
    if jobs != [] {
      var init := jobs[..|jobs| - 1];
      RemainingMembership(init, probe, j);
      assert jobs == init + [jobs[|jobs| - 1]];
    }
  }

  /** The filter keeps order: filtering a concatenation concatenates the filtered parts. */
  lemma {:induction false} RemainingAppend(a: seq<string>, b: seq<string>, probe: string -> Probe)
    ensures Remaining(a + b, probe) == Remaining(a, probe) + Remaining(b, probe)
    decreases |b|
  {
    if b == [] {
      assert a + b == a;
    } else {
      var init := b[..|b| - 1];
      assert (a + b)[..|a + b| - 1] == a + init;
      RemainingAppend(a, init, probe);
    }
  }

  /** The round ends the monitoring exactly when no tracked job is still queued. */
  lemma RemainingEmpty(jobs: seq<string>, probe: string -> Probe)
    ensures Remaining(jobs, probe) == [] <==> forall j | j in jobs :: !StillQueued(probe(j))
  {
    if Remaining(jobs, probe) != [] {
      var j := Remaining(jobs, probe)[0];
      RemainingMembership(jobs, probe, j);
    }
    forall j | j in jobs && StillQueued(probe(j)) ensures j in Remaining(jobs, probe) {
      RemainingMembership(jobs, probe, j);
    }
  }

  /** The first of the monitoring rounds after which no tracked job is still queued.
      The monitor of the source polls until that happens; here the rounds are a finite
      list of what `squeue` answers in each round. */
  function FirstQuiet(jobs: seq<string>, rounds: seq<string -> Probe>): Option<nat> {
    FirstWhere(rounds, probe => Remaining(jobs, probe) == [])
  }

  /** The position of the first element that satisfies `p`, if any. */
  function FirstWhere<T>(xs: seq<T>, p: T -> bool): Option<nat>
    decreases |xs|
  {
    if xs == [] then None
    else if p(xs[0]) then Some(0)
    else
      match FirstWhere(xs[1..], p)
      case None => None
      case Some(r) => Some(r + 1)
  }

  /** `FirstWhere` finds the first satisfying position, and nothing exactly when no
      element satisfies `p`. */
  lemma {:induction false} FirstWhereExact<T>(xs: seq<T>, p: T -> bool)
    ensures FirstWhere(xs, p).Some? ==>
      var r := FirstWhere(xs, p).value;
      r < |xs| && p(xs[r]) && forall q | 0 <= q < r :: !p(xs[q])
    ensures FirstWhere(xs, p).None? <==> forall q | 0 <= q < |xs| :: !p(xs[q])
    decreases |xs|
  {
    if xs != [] && !p(xs[0]) {
      var rest := xs[1..];
      FirstWhereExact(rest, p);
      assert forall q | 0 < q < |xs| :: xs[q] == rest[q - 1];
    }
  }


  /** `FirstQuiet` finds the earliest quiet round, and finds none exactly when every round
      still sees a queued job. */
  lemma FirstQuietExact(jobs: seq<string>, rounds: seq<string -> Probe>)
    ensures FirstQuiet(jobs, rounds).Some? ==>
      var r := FirstQuiet(jobs, rounds).value;
      && r < |rounds| && Remaining(jobs, rounds[r]) == []
      && forall q | 0 <= q < r :: Remaining(jobs, rounds[q]) != []
    ensures FirstQuiet(jobs, rounds).None? <==> forall q | 0 <= q < |rounds| :: Remaining(jobs, rounds[q]) != []
  {
    FirstWhereExact(rounds, probe => Remaining(jobs, probe) == []);
  }



  /** A quiet round after only busy ones is the one `FirstQuiet` finds. */
  lemma FirstQuietAt(jobs: seq<string>, rounds: seq<string -> Probe>, r: nat)
    requires r < |rounds| && Remaining(jobs, rounds[r]) == []
    requires forall q | 0 <= q < r :: Remaining(jobs, rounds[q]) != []
    ensures FirstQuiet(jobs, rounds) == Some(r)
  {
    FirstQuietExact(jobs, rounds);
  }
}
