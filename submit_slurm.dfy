/** The orchestrator of submit_slurm.py as an object: it keeps the speaker folders it
    discovered and the job ids it submitted, and its methods follow the loops of the
    source step by step. The scheduler, the file system and `json.load` are parameters
    (see `SlurmJobs` and `SlurmResults` for the rules each step follows). */
module SubmitSlurm {
  import opened Optional
  import opened Strings
  import opened JsonValues
  import opened PurePaths
  import opened SlurmJobs
  import opened SlurmResults

  /** How `run` ends: no speaker folder, an `sbatch` reply without a word (the
      `IndexError` of `submit_slurm_job`), jobs still queued after the last round of
      probes, a folder whose organising raised, or the whole pipeline done. */
  datatype RunStatus = NoFolders | SubmissionFailed | StillMonitoring | OrganiseFailed(folder: string) | Completed

  /** Monitoring returns: at once without jobs, or after a round with nothing queued. */
  predicate MonitorReturns(jobs: seq<string>, rounds: seq<string -> Probe>) {
    jobs == [] || FirstQuiet(jobs, rounds).Some?
  }

  class SpeakerAnalysisOrchestrator {
    const baseDir: string
    const threshold: int
    const config: Config
    var jobIds: seq<string>
    var speakerFolders: seq<string>

    constructor (baseDir: string, threshold: int, config: Config)
      ensures this.baseDir == baseDir && this.threshold == threshold && this.config == config
      ensures jobIds == [] && speakerFolders == []
    {
      this.baseDir := baseDir;
      this.threshold := threshold;
      this.config := config;
      jobIds := [];
      speakerFolders := [];
    }

    /** Walks the base directory in name order and keeps every visible directory
        holding an audio file; see `SpeakerFoldersExact` and `SpeakerFoldersIncreasing`. */
    method DiscoverSpeakerFolders(listing: seq<Entry>) returns (folders: seq<string>)
      modifies this
      ensures folders == SpeakerFolders(listing)
      ensures speakerFolders == folders && jobIds == old(jobIds)
    {
      var sorted := SortBy(listing, EntryName);
      folders := [];
      var i := 0;
      while i < |sorted|
        invariant 0 <= i <= |sorted|
        invariant folders == KeysWhere(sorted[..i], IsSpeakerFolder, EntryName)
      {
        var entry := sorted[i];
        assert sorted[..i + 1][..i] == sorted[..i];
        if entry.isDir && !StartsWith(entry.name, ".") && HoldsAudio(entry) {
          folders := folders + [entry.name];
        }
        i := i + 1;
      }
      assert sorted[..i] == sorted;
      speakerFolders := folders;
    }

    /** The submission loop of `run`: the script of each folder goes to `sbatch`, and the
        id of each accepted job is appended; a reply without a word stops the loop. */
    method SubmitJobs(sbatch: string -> SbatchReply) returns (aborted: bool)
      modifies this
      ensures var t := SubmitAll(baseDir, speakerFolders, sbatch);
        jobIds == old(jobIds) + t.ids && aborted == t.aborted
      ensures speakerFolders == old(speakerFolders)
    {
      var folders := speakerFolders;
      ghost var added: seq<string> := [];
      var i := 0;
      while i < |folders|
        invariant 0 <= i <= |folders|
        invariant speakerFolders == folders
        invariant jobIds == old(jobIds) + added
        invariant SubmitAll(baseDir, folders[..i], sbatch) == Tracked(added, false)
      {
        var submitted := ParseJobId(sbatch(ScriptPath(baseDir, folders[i])));
        SubmitAllSnoc(baseDir, folders, i, sbatch, added);
        match submitted {
          case NoWord =>
            SubmitAllStops(baseDir, folders, i, sbatch);
            return true;
          case NotSubmitted =>
          case JobId(id) =>
            jobIds := jobIds + [id];
            added := added + [id];
        }
        i := i + 1;
      }
      assert folders[..i] == folders;
      aborted := false;
    }

    /** One pass over the tracked jobs: the ones `squeue` still lists, in tracking order. */
    method StillRunning(probe: string -> Probe) returns (remaining: seq<string>)
      ensures remaining == Remaining(jobIds, probe)
    {
      remaining := [];
      var j := 0;
      while j < |jobIds|
        invariant 0 <= j <= |jobIds|
        invariant remaining == Remaining(jobIds[..j], probe)
      {
        var job := jobIds[j];
        var p := probe(job);
        assert jobIds[..j + 1][..j] == jobIds[..j];
        if p.returncode == 0 && Strip(p.stdout) != "" {
          remaining := remaining + [job];
        }
        j := j + 1;
      }
      assert jobIds[..j] == jobIds;
    }

    /** Polls the queue round after round until no tracked job is left; `polls` is the
        number of rounds used. Without jobs it returns at once. */
    method MonitorJobs(rounds: seq<string -> Probe>) returns (finished: bool, polls: nat)
      ensures finished == MonitorReturns(jobIds, rounds)
      ensures jobIds == [] ==> polls == 0
      ensures jobIds != [] ==> polls == match FirstQuiet(jobIds, rounds)
        case Some(r) => r + 1
        case None => |rounds|
    {
      if jobIds == [] {
        return true, 0;
      }
      polls := 0;
      while polls < |rounds|
        invariant polls <= |rounds|
        invariant forall q | 0 <= q < polls :: Remaining(jobIds, rounds[q]) != []
      {
        var remaining := StillRunning(rounds[polls]);
        if remaining == [] {
          FirstQuietAt(jobIds, rounds, polls);
          return true, polls + 1;
        }
        polls := polls + 1;
      }
      FirstQuietExact(jobIds, rounds);
      finished := false;
    }

    /** `organise_results` for one speaker folder, entry by entry of its results file. */
    method OrganiseResults(folder: Folder, parse: string -> Option<Json>) returns (after: Folder, completed: bool)
      ensures Outcome(after, completed) == Organise(folder, threshold, parse)
    {
      if ResultsFile !in folder {
        return folder, true;
      }
      var loaded: Option<Json> := match folder[ResultsFile]
        case Doc(d) => Some(d)
        case Text(t) => parse(t);
      if !(loaded.Some? && loaded.value.Object?) {
        return folder, false;
      }
      var items := Items(loaded.value.members);
      after := folder;
      var i := 0;
      while i < |items|
        invariant 0 <= i <= |items|
        invariant ApplyAll(after, items[i..], threshold) == ApplyAll(folder, items, threshold)
      {
        var key, payload := items[i].0, items[i].1;
        ApplyAllStep(after, items, threshold, i);
        PlanCallSteps(key, payload, threshold);
        if !payload.Object? {
          return after, false;
        }
        var score := ScoreOf(payload.members);
        if score.None? {
          return after, false;
        }
        var audio := Get(payload.members, "audio_file", Str(key));
        if !audio.Str? {
          return after, false;
        }
        var plan := CallPlan(key, payload, BucketFor(score.value, threshold), Stem(Name(audio.s)), audio.s);
        after := CopyCall(after, plan);
        i := i + 1;
      }
      completed := true;
    }

    /** The body of the loop of `organise_results` once an entry is planned: copy the
        audio file, copy each companion found, write the entry's own results file. */
    method CopyCall(folder: Folder, plan: CallPlan) returns (after: Folder)
      ensures after == ApplyCall(folder, plan)
    {
      var target := CallDir(plan);
      after := Copy(folder, plan.audioName, target + "/" + Name(plan.audioName));
      ghost var withAudio := after;
      var k := 0;
      while k < |CompanionSuffixes|
        invariant 0 <= k <= |CompanionSuffixes|
        invariant CopyCompanions(after, plan.callId, target, CompanionSuffixes[k..]) ==
          CopyCompanions(withAudio, plan.callId, target, CompanionSuffixes)
      {
        var candidate := plan.callId + CompanionSuffixes[k];
        assert CompanionSuffixes[k..][1..] == CompanionSuffixes[k + 1..];
        after := Copy(after, candidate, target + "/" + candidate);
        k := k + 1;
      }
      after := after[ResultPath(plan) := Doc(Object([(plan.key, plan.payload)]))];
    }

    /** The whole of `run`: discover, submit, monitor, then organise every folder. */
    method Run(listing: seq<Entry>, sbatch: string -> SbatchReply, rounds: seq<string -> Probe>,
               folders: Folders, parse: string -> Option<Json>)
      returns (status: RunStatus, after: Folders)
      modifies this
      ensures speakerFolders == SpeakerFolders(listing)
      ensures speakerFolders == [] ==> status == NoFolders && after == folders && jobIds == old(jobIds)
      ensures speakerFolders != [] ==>
        var t := SubmitAll(baseDir, speakerFolders, sbatch);
        && jobIds == old(jobIds) + t.ids
        && (t.aborted ==> status == SubmissionFailed && after == folders)
        && (!t.aborted && !MonitorReturns(jobIds, rounds) ==> status == StillMonitoring && after == folders)
        && (!t.aborted && MonitorReturns(jobIds, rounds) ==>
              var o := OrganiseEach(folders, speakerFolders, threshold, parse);
              after == o.folders && status == (if o.failed.Some? then OrganiseFailed(o.failed.value) else Completed))
    {
      var discovered := DiscoverSpeakerFolders(listing);
      if discovered == [] {
        return NoFolders, folders;
      }
      var aborted := SubmitJobs(sbatch);
      if aborted {
        return SubmissionFailed, folders;
      }
      var finished, _ := MonitorJobs(rounds);
      if !finished {
        return StillMonitoring, folders;
      }
      ghost var submitted := jobIds;
      after := folders;
      var i := 0;
      while i < |speakerFolders|
        invariant 0 <= i <= |speakerFolders|
        invariant speakerFolders == discovered && jobIds == submitted
        invariant OrganiseEach(after, speakerFolders[i..], threshold, parse) == OrganiseEach(folders, speakerFolders, threshold, parse)
      {
        var name := speakerFolders[i];
        assert speakerFolders[i..][0] == name && speakerFolders[i..][1..] == speakerFolders[i + 1..];
        if name in after {
          var organised, completed := OrganiseResults(after[name], parse);
          after := after[name := organised];
          if !completed {
            return OrganiseFailed(name), after;
          }
        }
        i := i + 1;
      }
      status := Completed;
    }
  }
}
