/** The batch transcription driver (transcribe_calls.py): find the audio files of a
    speaker folder, then run the transcription script once per file. The folder is given
    as the names of its entries; running a command is a parameter giving its exit code. */
module TranscribeCalls {
  import opened Strings
  import opened PurePaths
  import SlurmJobs

  /** The same suffixes as the scheduler side, matched here case-sensitively by `glob`. */
  const AudioExtensions: seq<string> := SlurmJobs.AudioExtensions

  /** The paths `folder.glob("*" + ext)` yields, in listing order, each taken as
      `<folder>/<name>`: the folder is absolute and no entry is a symbolic link. */
  function Glob(folder: string, names: seq<string>, ext: string): seq<string> {
    KeysWhere(names, n => EndsWith(n, ext), n => PathJoin(folder, n))
  }

  /** The list `discover_audio_files` extends, one extension after the other. */
  function GlobAll(folder: string, names: seq<string>, exts: seq<string>): seq<string> {
    if exts == [] then []
    else GlobAll(folder, names, exts[..|exts| - 1]) + Glob(folder, names, exts[|exts| - 1])
  }

  /** What `discover_audio_files` returns: the distinct paths found, sorted. */
  function AudioFiles(folder: string, names: seq<string>): seq<string> {
    SortBy(Unique(GlobAll(folder, names, AudioExtensions)), Identity)
  }

  /** A name `glob` matches for one of the extensions. */
  predicate IsAudioName(n: string) {
    exists k | 0 <= k < |AudioExtensions| :: EndsWith(n, AudioExtensions[k])
  }

  lemma GlobMembership(folder: string, names: seq<string>, ext: string, p: string)
    ensures p in Glob(folder, names, ext) <==> exists j | 0 <= j < |names| :: EndsWith(names[j], ext) && p == PathJoin(folder, names[j])
  {
    KeysWhereMembership(names, n => EndsWith(n, ext), n => PathJoin(folder, n), p);
  }

  lemma {:induction false} GlobAllMembership(folder: string, names: seq<string>, exts: seq<string>, p: string)
    ensures p in GlobAll(folder, names, exts) <==>
      exists j, k | 0 <= j < |names| && 0 <= k < |exts| :: EndsWith(names[j], exts[k]) && p == PathJoin(folder, names[j])
    decreases |exts|
  {
    if exts != [] {
      var init, ext := exts[..|exts| - 1], exts[|exts| - 1];
      GlobAllMembership(folder, names, init, p);
      GlobMembership(folder, names, ext, p);
      GlobAllSplit(folder, names, exts, p);
    }
  }

  /** One more extension adds the names found for it. */
  lemma GlobAllSplit(folder: string, names: seq<string>, exts: seq<string>, p: string)
    requires exts != []
    ensures var init, ext := exts[..|exts| - 1], exts[|exts| - 1];
      (exists j, k | 0 <= j < |names| && 0 <= k < |exts| :: EndsWith(names[j], exts[k]) && p == PathJoin(folder, names[j])) <==>
      (exists j, k | 0 <= j < |names| && 0 <= k < |init| :: EndsWith(names[j], init[k]) && p == PathJoin(folder, names[j]))
      || (exists j | 0 <= j < |names| :: EndsWith(names[j], ext) && p == PathJoin(folder, names[j]))
  {
    PairSplit(names, exts, (n, e) => EndsWith(n, e) && p == PathJoin(folder, n));
  }

  /** A pair drawn from `xs` and `ys` either uses an element of `ys` before the last, or
      the last one. */
  lemma PairSplit<A, B>(xs: seq<A>, ys: seq<B>, hit: (A, B) -> bool)
    requires ys != []
    ensures var init, last := ys[..|ys| - 1], ys[|ys| - 1];
      (exists j, k | 0 <= j < |xs| && 0 <= k < |ys| :: hit(xs[j], ys[k])) <==>
      (exists j, k | 0 <= j < |xs| && 0 <= k < |init| :: hit(xs[j], init[k]))
      || (exists j | 0 <= j < |xs| :: hit(xs[j], last))
  {
    var init, last := ys[..|ys| - 1], ys[|ys| - 1];
    if exists j, k | 0 <= j < |xs| && 0 <= k < |ys| :: hit(xs[j], ys[k]) {
      var j, k :| 0 <= j < |xs| && 0 <= k < |ys| && hit(xs[j], ys[k]);
      if k < |init| {
        assert init[k] == ys[k];
      }
    }
    if exists j, k | 0 <= j < |xs| && 0 <= k < |init| :: hit(xs[j], init[k]) {
      var j, k :| 0 <= j < |xs| && 0 <= k < |init| && hit(xs[j], init[k]);
      assert ys[k] == init[k];
    }
    if exists j | 0 <= j < |xs| :: hit(xs[j], last) {
      var j :| 0 <= j < |xs| && hit(xs[j], last);
      assert ys[|init|] == last;
    }
  }




  /** The discovered files are strictly increasing (so sorted and free of duplicates), and
      they are exactly the folder's entries whose name ends with an audio extension. */
  lemma AudioFilesExact(folder: string, names: seq<string>)
    ensures StrictlyIncreasing(AudioFiles(folder, names))
    ensures forall p :: p in AudioFiles(folder, names) <==>
      exists j | 0 <= j < |names| :: IsAudioName(names[j]) && p == PathJoin(folder, names[j])
  {
    var found := GlobAll(folder, names, AudioExtensions);
    var u := Unique(found);
    SortByStrict(u, Identity);
    var r := AudioFiles(folder, names);
    assert StrictlySortedBy(r, Identity);
    forall p ensures p in r <==> exists j | 0 <= j < |names| :: IsAudioName(names[j]) && p == PathJoin(folder, names[j]) {
      GlobAllMembership(folder, names, AudioExtensions, p);
      assert p in r <==> p in multiset(u);
    }
  }

  /** `discover_audio_files`: one `glob` per extension, then `sorted` of the set. */
  method DiscoverAudioFiles(folder: string, names: seq<string>) returns (files: seq<string>)
    ensures files == AudioFiles(folder, names)
  {
    var found: seq<string> := [];
    var k := 0;
    while k < |AudioExtensions|
      invariant 0 <= k <= |AudioExtensions|
      invariant found == GlobAll(folder, names, AudioExtensions[..k])
    {
      var ext := AudioExtensions[k];
      var j := 0;
      ghost var before := found;
      while j < |names|
        invariant 0 <= j <= |names|
        invariant found == before + Glob(folder, names[..j], ext)
      {
        assert names[..j + 1][..j] == names[..j];
        if EndsWith(names[j], ext) {
          found := found + [PathJoin(folder, names[j])];
        }
        j := j + 1;
      }
      assert names[..j] == names;
      assert AudioExtensions[..k + 1][..k] == AudioExtensions[..k];
      k := k + 1;
    }
    assert AudioExtensions[..k] == AudioExtensions;
    files := SortBy(Unique(found), Identity);
  }

  /** The command line for one file: interpreter, script, the file, the device option,
      then the extra arguments unchanged. */
  function Command(python: string, script: string, audio: string, device: string, extra: seq<string>): seq<string> {
    [python, script, audio, "--device", device] + extra
  }

  /** The file, the device and the extra arguments can be read back from a command,
      so different files never share a command. */
  lemma CommandFields(python: string, script: string, audio: string, device: string, extra: seq<string>)
    ensures var cmd := Command(python, script, audio, device, extra);
      && |cmd| == 5 + |extra| && cmd[..2] == [python, script]
      && cmd[2] == audio && cmd[3] == "--device" && cmd[4] == device && cmd[5..] == extra
  {
  }

  lemma CommandInjective(python: string, script: string, device: string, extra: seq<string>, a: string, b: string)
    ensures Command(python, script, a, device, extra) == Command(python, script, b, device, extra) ==> a == b
  {
    if Command(python, script, a, device, extra) == Command(python, script, b, device, extra) {
      CommandFields(python, script, a, device, extra);
      CommandFields(python, script, b, device, extra);
    }
  }

  /** The names of the files whose command exited with a non-zero code, in order. */
  function Failures(files: seq<string>, python: string, script: string, device: string, extra: seq<string>,
                    exec: seq<string> -> int): seq<string>
  {
    KeysWhere(files, f => exec(Command(python, script, f, device, extra)) != 0, f => Name(f))
  }

  /** `run_transcription`: one command per file, in order; a failure is reported and the
      loop goes on with the next file. */
  method RunTranscription(files: seq<string>, python: string, script: string, device: string, extra: seq<string>,
                          exec: seq<string> -> int)
    returns (commands: seq<seq<string>>, failed: seq<string>)
    ensures |commands| == |files|
    ensures forall i | 0 <= i < |files| :: commands[i] == Command(python, script, files[i], device, extra)
    ensures failed == Failures(files, python, script, device, extra, exec)
  {
    commands := [];
    failed := [];
    var i := 0;
    while i < |files|
      invariant 0 <= i <= |files|
      invariant |commands| == i
      invariant forall q | 0 <= q < i :: commands[q] == Command(python, script, files[q], device, extra)
      invariant failed == Failures(files[..i], python, script, device, extra, exec)
    {
      var cmd := [python, script, files[i], "--device", device] + extra;
      commands := commands + [cmd];
      assert files[..i + 1][..i] == files[..i];
      if exec(cmd) != 0 {
        failed := failed + [Name(files[i])];
      }
      i := i + 1;
    }
    assert files[..i] == files;
  }

  /** A file's run is reported as failed exactly when its command exited non-zero;
      a failure does not keep later files from running. */
  lemma FailuresExact(files: seq<string>, python: string, script: string, device: string, extra: seq<string>,
                      exec: seq<string> -> int, n: string)
    ensures n in Failures(files, python, script, device, extra, exec) <==>
      exists i | 0 <= i < |files| :: exec(Command(python, script, files[i], device, extra)) != 0 && Name(files[i]) == n
  {
    KeysWhereMembership(files, f => exec(Command(python, script, f, device, extra)) != 0, f => Name(f), n);
  }

  /** How `main` ends. */
  datatype MainOutcome =
    | ScriptMissing
    | FolderMissing
    | NoAudioFiles
    | Transcribed(commands: seq<seq<string>>, failed: seq<string>)

  /** `main` after argument parsing: check the script and the folder, discover, transcribe. */
  method TranscribeFolder(scriptExists: bool, folderIsDir: bool, folder: string, names: seq<string>,
                          python: string, script: string, device: string, extra: seq<string>,
                          exec: seq<string> -> int)
    returns (outcome: MainOutcome)
    ensures !scriptExists <==> outcome == ScriptMissing
    ensures scriptExists && !folderIsDir <==> outcome == FolderMissing
    ensures outcome == NoAudioFiles <==> scriptExists && folderIsDir && AudioFiles(folder, names) == []
    ensures outcome.Transcribed? ==>
      var files := AudioFiles(folder, names);
      && files != []
      && |outcome.commands| == |files|
      && (forall i | 0 <= i < |files| :: outcome.commands[i] == Command(python, script, files[i], device, extra))
      && outcome.failed == Failures(files, python, script, device, extra, exec)
  {
    if !scriptExists {
      return ScriptMissing;
    }
    if !folderIsDir {
      return FolderMissing;
    }
    var files := DiscoverAudioFiles(folder, names);
    if files == [] {
      return NoAudioFiles;
    }
    var commands, failed := RunTranscription(files, python, script, device, extra, exec);
    outcome := Transcribed(commands, failed);
  }
}
