# Call-analysis pipeline, modelled in Dafny

This project models the deterministic rules inside the four scripts of a call-analysis
pipeline for a Slurm cluster:

- **submit_slurm.py** finds the agent ("speaker") folders of a base directory. It
  derives each folder's job header: job name, script path, log paths, account and QoS.
  It submits one job per folder and tracks the job ids that `sbatch` prints. It then
  polls `squeue` until no tracked job is queued, and finally sorts every analysed call
  into `needs_further_attention` or `reviewed` by its score.
- **transcribe_calls.py** finds the audio files of a folder as a sorted list without
  duplicates. It runs one `whisperx_script.py` command per file and reports the ones
  that fail.
- **whisperx_script.py** picks the agent speaker (the first segment whose text holds an
  agent keyword). It labels every segment as the agent or as `user` by an
  ordered list of rules. Then it writes the WebVTT file: the `WEBVTT` line, then one
  three-line cue per complete segment.
- **analyze_with_ollama.py** reads a transcript back from a WebVTT file. It cuts the
  model's reply down to the text between the first `{` and the last `}`, and merges
  what that text loads to over eight default fields. It builds one record per call,
  keys the records of a folder by VTT file name, and renders the Markdown report.

The modules are:

- `Strings` — Python's string operations: `strip`, `lower`, `split`, `splitlines`,
  `join`, `replace`, `find`, and `sorted` by a key;
- `JsonValues` — what `json` loads, dictionary lookup and Python's `int()`;
- `PurePaths` — `pathlib` `name`, `suffix`, `stem` and `with_suffix`;
- `SlurmJobs` and `SlurmResults` — the scheduler rules and the result bucketing of
  submit_slurm.py;
- `SubmitSlurm` — the orchestrator class with its `jobIds` and `speakerFolders` fields;
- `TranscribeCalls`, `WhisperxScript` and `AnalyzeWithOllama` — one per script;
- `VttRoundTrip` — proves that the transcript reader of analyze_with_ollama.py gets
  back exactly the cue texts that the writer of whisperx_script.py wrote, in order.

Loops of the source are methods with loop invariants. Each is proved equal to a
specification function, and lemmas state what the source promises about that function.

Where the design notes of the system and the code disagree, the model follows the code:

- A call goes to `needs_further_attention` when `score < threshold`, so a score equal to
  the threshold is `reviewed` (`SlurmResults.BucketBoundary`).
- Organising copies files into the buckets and never moves or deletes any
  (`SlurmResults.OrganiseCopies`).
- The score that is bucketed is the model-reported `total_score`, copied into `score`.
  Nothing recomputes a total (`AnalyzeWithOllama.CallRecordLookup`).
- Jobs have no lifecycle state machine, retry counter or staleness timeout. Monitoring
  only filters the tracked ids by what `squeue` says (`SlurmJobs.RemainingMembership`).
- When `sbatch` succeeds but prints nothing, `split()[-1]` raises `IndexError`, which
  nothing catches, so the run stops. The model returns `SubmissionFailed`
  (`SlurmJobs.SubmitAllAborts`).

## Model

| member | source | states |
|---|---|---|
| SlurmJobs.SpeakerFoldersExact | submit_slurm.py:65-77 | a name is discovered iff the listing has an entry with that name that is a directory, whose name does not start with `.`, and below which some path has a lower-cased suffix in the audio extensions |
| SlurmJobs.SpeakerFoldersIncreasing | submit_slurm.py:68-75 | for a listing with distinct names, the discovered folders are strictly increasing by name: sorted and duplicate-free |
| SubmitSlurm.SpeakerAnalysisOrchestrator.constructor | submit_slurm.py:55-61 | a new orchestrator keeps its base directory, threshold and configuration, and starts with no job ids and no speaker folders |
| SubmitSlurm.SpeakerAnalysisOrchestrator.DiscoverSpeakerFolders | submit_slurm.py:65-77 | the loop returns the speaker folders of the listing in sorted order, stores them in `speakerFolders`, and leaves `jobIds` alone |
| SlurmJobs.ExplicitQosWins | submit_slurm.py:92-93 | an explicit QoS is the one requested, whatever the account and partition |
| SlurmJobs.DerivedQos | submit_slurm.py:94-98 | with no QoS, an account and partition `gpu-<type>`, the QoS is `<account>-gpu-<type>` |
| SlurmJobs.QosRequiresAccount | submit_slurm.py:92-100 | with no explicit QoS, a QoS line appears iff an account is set and the partition starts with `gpu-` |
| SlurmJobs.AccountLinePresent | submit_slurm.py:89 | the account line is non-empty iff an account is configured |
| SlurmJobs.ScriptNaming | submit_slurm.py:82-83 | the script file is named `<folder>_pipeline.slurm` inside the base directory, and its stem is the job name |
| SlurmJobs.HeaderJobName | submit_slurm.py:102-103 | reading the rendered header back, `--job-name` is `<folder>_pipeline` |
| SlurmJobs.HeaderLogPaths | submit_slurm.py:110-111 | reading the rendered header back, output and error go to `<base>/logs/<job>_%j.out` and `.err` |
| SlurmJobs.HeaderAccount | submit_slurm.py:89-113 | reading the header back, `--account` is the configured account when there is one and absent otherwise |
| SlurmJobs.HeaderQos | submit_slurm.py:92-114 | reading the header back, `--qos` is exactly what the QoS rule decides |
| SlurmJobs.ReadFirstDirective | submit_slurm.py:102-114 | the first directive for an option among well-formed header lines is the one a reader finds; lines for other options never match |
| SlurmJobs.ReadMissingDirective | submit_slurm.py:102-114 | a header without a directive for an option yields nothing for it |
| SlurmJobs.ParseJobId | submit_slurm.py:211-227 | a parsed job id is non-empty and holds no white space |
| SlurmJobs.ParseJobIdFromReply | submit_slurm.py:222-225 | an accepted reply `<text> <id>` plus trailing white space yields `<id>` (the last word), and every rejected submission yields no id |
| SlurmJobs.SubmitAllAppend | submit_slurm.py:306-310 | submitting two batches of folders in turn tracks the first batch's ids, then the second's, unless the first aborted: ids keep folder order |
| SlurmJobs.SubmitAllTracks | submit_slurm.py:306-310 | every tracked id is the id some folder's accepted reply gave |
| SlurmJobs.SubmitAllComplete | submit_slurm.py:306-310 | without an abort, every accepted job's id is tracked |
| SlurmJobs.SubmitAllAborts | submit_slurm.py:306-310 | the loop aborts iff some accepted reply holds no word |
| SlurmJobs.SubmitAllSnoc | submit_slurm.py:306-310 | one more folder adds its reply's id to the ids so far, or stops the loop |
| SubmitSlurm.SpeakerAnalysisOrchestrator.SubmitJobs | submit_slurm.py:306-310 | the loop appends the ids that `SubmitAll` describes to `jobIds` and reports the abort; `speakerFolders` is unchanged |
| SlurmJobs.RemainingMembership | submit_slurm.py:239-247 | a job remains iff it is tracked and its probe exited 0 with non-blank output |
| SlurmJobs.RemainingAppend | submit_slurm.py:239-247 | the filter keeps tracking order: filtering a concatenation concatenates the filtered parts |
| SlurmJobs.RemainingEmpty | submit_slurm.py:248-250 | a round ends monitoring iff no tracked job is still queued |
| SubmitSlurm.SpeakerAnalysisOrchestrator.StillRunning | submit_slurm.py:239-247 | one pass returns the still-queued jobs in tracking order, without changing `jobIds` |
| SlurmJobs.FirstQuietExact | submit_slurm.py:238-254 | the round monitoring stops after is the first in which nothing is queued; none is found iff every round still sees a queued job |
| SlurmJobs.FirstQuietAt | submit_slurm.py:238-254 | a quiet round after only busy rounds is the one monitoring stops after |
| SubmitSlurm.SpeakerAnalysisOrchestrator.MonitorJobs | submit_slurm.py:231-254 | with no jobs, returns at once after 0 polls; otherwise polls up to and including the first quiet round, and reports still running when no round is quiet |
| SlurmResults.BucketBoundary | submit_slurm.py:276 | a score equal to the threshold is `reviewed`; one below it needs further attention |
| SlurmResults.BucketMonotone | submit_slurm.py:276 | lowering a score never moves a call out of `needs_further_attention`, and raising one never moves it out of `reviewed` |
| SlurmResults.PlanCallRules | submit_slurm.py:272-277 | the bucket is `needs_further_attention` iff `int(score) < threshold`, a missing score counting as 0; the audio name is `audio_file` when it is a string and the entry's key when it is missing, and the call id is that name's stem |
| SlurmResults.PlanCallRefuses | submit_slurm.py:272 | a payload that is not an object, or whose score is `null`, `NaN` or an infinity, raises |
| SlurmResults.OrganiseCopies | submit_slurm.py:258-294 | organising keeps every file that existed and changes no file outside the two bucket directories; without a results file it changes nothing |
| SlurmResults.OrganiseIdempotent | submit_slurm.py:258-294 | organising a second time gives the same folder and the same completion, as long as no entry's audio file lies inside a bucket: the copies read only files outside the buckets and write only inside them |
| SlurmResults.ApplyCallPreserves | submit_slurm.py:277-287 | one entry only adds or overwrites files inside its bucket |
| SlurmResults.ApplyAllPreserves | submit_slurm.py:271-287 | all entries together only add or overwrite files inside the buckets |
| SlurmResults.ApplyCallAudio | submit_slurm.py:277-280 | each entry copies its audio file, with its content, to `<bucket>/<call id>/<audio name>`, unless a companion or the results file has the same name |
| SlurmResults.ApplyCallResult | submit_slurm.py:285-287 | each entry writes `<bucket>/<call id>/analysis_results.json` holding just that entry |
| SlurmResults.ApplyCallCompanion | submit_slurm.py:281-283 | each `<call id>.vtt/.srt/.txt/.json` present in the folder is copied, with its content, into the call's directory |
| SlurmResults.CopyCompanionsCopies | submit_slurm.py:281-283 | the copy of a companion lands in the call's directory with the source's content |
| SlurmResults.CopyCompanionsKeepsOthers | submit_slurm.py:281-294 | copying companions leaves every other path as it was |
| SlurmResults.OrganiseEachPreserves | submit_slurm.py:314-315 | organising every folder keeps the set of folders and each folder's files, and names as failed only a folder it was given |
| SubmitSlurm.SpeakerAnalysisOrchestrator.OrganiseResults | submit_slurm.py:258-289 | the loop over the results file's entries gives the folder and completion that `Organise` describes |
| SubmitSlurm.SpeakerAnalysisOrchestrator.CopyCall | submit_slurm.py:277-287 | copy the audio file, then each companion, then write the per-call results file |
| SubmitSlurm.SpeakerAnalysisOrchestrator.Run | submit_slurm.py:298-315 | discover; with no folders stop; otherwise submit (stop on an abort), monitor (stop if jobs are still queued), then organise every folder in order, stopping at the first that raises; `jobIds` grows by exactly the tracked ids |
| TranscribeCalls.GlobMembership | transcribe_calls.py:50 | `glob("*<ext>")` yields exactly the folder's entries whose name ends with `<ext>` (case-sensitively) |
| TranscribeCalls.GlobAllMembership | transcribe_calls.py:49-50 | the extended list holds exactly the entries matching one of the extensions |
| TranscribeCalls.AudioFilesExact | transcribe_calls.py:47-51 | the discovered files are strictly increasing (sorted, no duplicates) and are exactly the entries ending in an audio extension |
| TranscribeCalls.DiscoverAudioFiles | transcribe_calls.py:47-51 | the loop extends the list one extension at a time and returns the sorted distinct paths, as `AudioFiles` describes |
| TranscribeCalls.CommandFields | transcribe_calls.py:58-64 | the command is interpreter, script, file, `--device`, device, then the extra arguments; the file, device and extras can be read back from it |
| TranscribeCalls.CommandInjective | transcribe_calls.py:58-64 | two different files never share a command |
| TranscribeCalls.RunTranscription | transcribe_calls.py:54-73 | one command per file, in input order; the failed list holds the files whose command exited non-zero |
| TranscribeCalls.FailuresExact | transcribe_calls.py:65-73 | a file is reported failed iff its command exited non-zero; a failure does not stop the files after it |
| TranscribeCalls.TranscribeFolder | transcribe_calls.py:76-94 | ends with script missing iff the script does not exist; with folder missing iff the script exists and the folder is not a directory; with no audio iff both checks pass and discovery is empty; otherwise every discovered file is transcribed |
| WhisperxScript.FirstSpeakerFirst | whisperx_script.py:121-127 | a first-match search returns the speaker of the first accepted segment, and nothing iff no segment is accepted |
| WhisperxScript.SelectAgentSpeakerFirst | whisperx_script.py:121-127 | the agent speaker is the non-empty speaker of the first segment with a speaker whose lower-cased text holds an agent keyword; `None` iff there is no such segment |
| WhisperxScript.Classify | whisperx_script.py:130-149 | the label is always the agent name or `user` |
| WhisperxScript.Decide | whisperx_script.py:139-149 | the six rules on the prepared text return only the agent name or `user` |
| WhisperxScript.ClassifyByText | whisperx_script.py:139-144 | when the text decides (agent keyword, user phrase, or a short answer in at most 30 characters), the speaker is irrelevant; a keyword gives the agent and the others give `user` |
| WhisperxScript.ClassifyBySpeaker | whisperx_script.py:145-149 | otherwise the segment is the agent iff it has a speaker that is the agent speaker, or none was chosen |
| WhisperxScript.NamingSegmentIsAgent | whisperx_script.py:121-140 | the segment that gave the agent speaker away is itself labelled as the agent: its keyword survives `strip()` |
| WhisperxScript.AnyInStrip | whisperx_script.py:124-139 | keywords without surrounding white space found in a lower-cased text are still found after `strip()` |
| WhisperxScript.LabelAllAt | whisperx_script.py:179-181 | labelling keeps length and order; the i-th output is the i-th segment with only its `speaker_label` set |
| WhisperxScript.LabelSegments | whisperx_script.py:176-182 | the loop chooses the agent speaker once and labels each segment in order, as `Relabel` describes |
| WhisperxScript.RelabelIdempotent | whisperx_script.py:176-182 | labelling the labelled segments again returns them unchanged |
| WhisperxScript.SameAgentSpeaker | whisperx_script.py:121-127 | segments differing only in labels choose the same agent speaker |
| WhisperxScript.RelabelAgentSegments | whisperx_script.py:176-182 | each segment of the chosen agent speaker (or, with none chosen, each with a speaker) is labelled as the agent unless its text says `user` |
| WhisperxScript.RelabelNamingSegment | whisperx_script.py:176-182 | the segment that names the agent is labelled as the agent |
| WhisperxScript.BuildVttContent | whisperx_script.py:152-166 | the loop emits the header, then a cue for each segment with both times and non-blank text, and ends with `rstrip` and one line break |
| WhisperxScript.VttTextShape | whisperx_script.py:152-166 | the file starts with `WEBVTT` and ends with exactly one `\n`: the character before it is not white space |
| WhisperxScript.VttTextEmpty | whisperx_script.py:152-166 | with no complete segment the file is exactly `WEBVTT\n` |
| VttRoundTrip.CueReadBack | whisperx_script.py:163-165 | the three lines of a cue are single lines, and the reader keeps only the text line, unchanged |
| VttRoundTrip.CueLinesReadBack | whisperx_script.py:154-165 | reading the lines after the header gives the cue texts in order |
| VttRoundTrip.FileLines | whisperx_script.py:166 | the written file is the header and the cue lines, each ended by a line break, minus the trailing blank line; the reader keeps the same lines from it |
| VttRoundTrip.VttReadBack | analyze_with_ollama.py:82-92 | `extract_transcription_text` of the written file is the cue texts, in order, joined by single spaces |
| AnalyzeWithOllama.ExtractTranscriptionText | analyze_with_ollama.py:82-92 | the loop skips arrow lines, blank lines and `WEBVTT` lines and joins the stripped rest with spaces, as `TranscriptText` describes |
| AnalyzeWithOllama.KeptLinesMembership | analyze_with_ollama.py:85-91 | a piece is in the transcript iff it is the strip of a kept line of the file |
| AnalyzeWithOllama.KeptLinesShape | analyze_with_ollama.py:88-91 | for a file split into lines, every piece is non-empty, does not start with `WEBVTT` and holds no line break |
| AnalyzeWithOllama.TranscriptOneLine | analyze_with_ollama.py:82-92 | the transcript holds no line break |
| AnalyzeWithOllama.Defaults | analyze_with_ollama.py:112-121 | the defaults have the eight keys, in order |
| AnalyzeWithOllama.DefaultsLookup | analyze_with_ollama.py:112-121 | the defaults hold a value for exactly the eight keys |
| AnalyzeWithOllama.DefaultsValues | analyze_with_ollama.py:112-121 | every score defaults to 0, and the reasoning to the raw reply, or to `Analysis failed` when the reply is empty |
| AnalyzeWithOllama.ReplySliceShape | analyze_with_ollama.py:124-126 | the slice is missing iff a brace is missing; otherwise it runs from a `{` with none before it to a `}` with none after it |
| AnalyzeWithOllama.Merge | analyze_with_ollama.py:130-132 | merging keeps the keys of the result and their order |
| AnalyzeWithOllama.MergeLookup | analyze_with_ollama.py:130-132 | after the merge a key reads the reply's value if the reply has it, the old value otherwise; other keys stay absent |
| AnalyzeWithOllama.MergeKeys | analyze_with_ollama.py:130-132 | the loop over the keys gives the merge that `Merge` describes |
| AnalyzeWithOllama.CallOllama | analyze_with_ollama.py:109-146 | defaults, then the loaded object's values merged over them, then an object reasoning turned into text, as `ReplyFields` describes |
| AnalyzeWithOllama.ReplyKeys | analyze_with_ollama.py:112-146 | the result always has exactly the eight keys, in order |
| AnalyzeWithOllama.ReplyDefaults | analyze_with_ollama.py:123-144 | a missing brace, a slice that does not load, or one that loads as a non-object leaves every field at its default |
| AnalyzeWithOllama.ReplyLookup | analyze_with_ollama.py:128-140 | for a reply object `m`, each of the eight keys reads `m`'s value when `m` has it, else the default; an object reasoning becomes its text; other keys of `m` are ignored |
| AnalyzeWithOllama.ReplyReasoningFlat | analyze_with_ollama.py:135-140 | the reasoning in the result is never an object |
| AnalyzeWithOllama.ShortenShape | analyze_with_ollama.py:174 | a text of at most `n` characters is kept whole; a longer one keeps its first `n` characters followed by `...` |
| AnalyzeWithOllama.ReasoningCellShape | analyze_with_ollama.py:202-203 | the report's reasoning cell holds no line feed and at most 103 characters |
| AnalyzeWithOllama.FirstSiblingFirst | analyze_with_ollama.py:179-182 | the first existing sibling is found in extension order, and none iff no sibling exists |
| AnalyzeWithOllama.DiscoverAudioNameFirst | analyze_with_ollama.py:178-183 | the audio name is the VTT stem plus the first of .wav, .mp3, .m4a, .flac, .ogg whose file exists, else the stem |
| AnalyzeWithOllama.BlankTranscriptSkipped | analyze_with_ollama.py:156-158 | a transcript that is white space only gives no record |
| AnalyzeWithOllama.CallRecordKeys | analyze_with_ollama.py:169-175 | a record's keys are `audio_file`, `transcription_file`, the eight reply keys, `score` and `transcription_preview`, in that order |
| AnalyzeWithOllama.CallRecordLookup | analyze_with_ollama.py:169-175 | a record reads the VTT file name, a `score` equal to `total_score`, and the preview |
| AnalyzeWithOllama.CallRecordFields | analyze_with_ollama.py:149-175 | a successful analysis names its files, carries the eight reply fields, a `score` equal to `total_score` and the preview |
| AnalyzeWithOllama.SummaryRowsAt | analyze_with_ollama.py:199-204 | the summary table has one row per result, in results order |
| AnalyzeWithOllama.SummaryTable | analyze_with_ollama.py:199-204 | the first loop of the report builds the rows `SummaryRows` describes |
| AnalyzeWithOllama.DetailedAnalysis | analyze_with_ollama.py:208-223 | the second loop builds one section per result, in order |
| AnalyzeWithOllama.GenerateMarkdownReport | analyze_with_ollama.py:186-226 | the report is the heading, the table rows, the `Detailed Analysis` heading and the sections, joined by line breaks |
| AnalyzeWithOllama.VttFiles | analyze_with_ollama.py:236 | a name is listed iff it is an entry of the folder ending in `.vtt`, and the list is sorted by name |
| AnalyzeWithOllama.AnalyzeSpeakerFolder | analyze_with_ollama.py:232-259 | results are keyed by VTT file name and hold only successful analyses; a report exists iff some analysis succeeded |
| AnalyzeWithOllama.FolderResultsExact | analyze_with_ollama.py:241-246 | each result is a VTT file whose analysis succeeded, with its record |
| AnalyzeWithOllama.FolderResultsKeys | analyze_with_ollama.py:241-246 | the keys of the results are the successful files, in file order |
| AnalyzeWithOllama.FolderResultsIncreasing | analyze_with_ollama.py:236-246 | for a folder with distinct names, the result keys are strictly increasing, so no file is keyed twice |
| JsonValues.Lookup | analyze_with_ollama.py:131-132 | a key is absent iff no member carries it; otherwise the value is that of its last occurrence |
| JsonValues.LookupAssign | analyze_with_ollama.py:132 | after `d[key] = value` the key reads the new value if it was present, and every other key reads what it did before |
| JsonValues.Items | submit_slurm.py:271 | `items()` gives each key once, with the value a lookup gives, and every key that a lookup finds |
| JsonValues.ParseShowInt | submit_slurm.py:272 | `int(str(i)) == i` |
| JsonValues.ToIntOfInt | submit_slurm.py:272 | `int()` of an integer, or of its decimal text, is that integer |
| JsonValues.ToIntOfFloat | submit_slurm.py:272 | `int()` of a float truncates toward zero |
| PurePaths.ComponentsConcat | submit_slurm.py:83 | joining two paths with a slash concatenates their components |
| PurePaths.NameOfJoin | submit_slurm.py:280 | the `name` of a file put in a directory is the file name |
| PurePaths.StemSuffix | submit_slurm.py:275 | `stem + suffix` is the name, and the stem is empty only for the empty name |
| PurePaths.WithSuffixRoundTrip | analyze_with_ollama.py:179 | after `with_suffix(ext)` with a proper extension, the suffix is `ext` and the stem is unchanged |
| Strings.StripShape | whisperx_script.py:135 | `strip()` empties exactly the all-space strings; otherwise it gives a string with no white space at either end |
| Strings.StripBounds | analyze_with_ollama.py:88 | `strip()` cuts a slice out of the string with only white space outside it |
| Strings.ContainsLowerStrip | whisperx_script.py:124-139 | a keyword without surrounding white space found in `s.lower()` is found in `s.strip().lower()` |
| Strings.WordsStrip | submit_slurm.py:225 | `s.strip().split() == s.split()` |
| Strings.SplitLinesTerminated | analyze_with_ollama.py:85 | `splitlines()` gives back the lines of a text in which each line ends with a line break |
| Strings.SortBy | submit_slurm.py:68 | `sorted` by key returns a sorted permutation of its input |
| Strings.SortByStrict | submit_slurm.py:68 | sorting a sequence with distinct keys gives a strictly increasing one |
| Strings.KeysWhereMembership | analyze_with_ollama.py:85-91 | a key is kept iff some element passes the filter and has that key |
| Strings.Unique | transcribe_calls.py:51 | deduplication keeps exactly the elements of the input, each once |

## Left out

- The HTTP calls to the model server are left out: `requests.post` and the `wait_for_ollama` polling. The reply text is a parameter and a failed request is `None`.
- The scheduler commands (`sbatch`, `squeue -j`, `squeue -u`) are left out. Their replies are parameters, a function from script path or job id to the reply.
- The 180-second sleep between monitoring rounds is left out.
- File-system effects are not modelled as I/O. Folders are maps from relative path to content, listings are sequences of entries, and `mkdir` and `chmod` are not modelled. A `write_text` or `json.dump` is a map update, and `shutil.copy2` is a copy of the map entry.
- `json.loads` is a parameter, and so is Python's `str()` of floats, lists and dictionaries. `time.strftime`, the report's date, is a parameter too.
- `seconds_to_timestamp` is the parameter `ts`. It is floating-point formatting.
- WhisperX model loading, transcription, diarization and `assign_word_speakers` are left out. They are foreign library calls, and segments are inputs.
- The bash body of the Slurm job script after the header is left out: it is an opaque template. The header lines are modelled.
- Argument parsing, the Python version check, `main`'s path resolution and all printing are left out.
- `HF_TOKEN` handling is left out. It only feeds the environment and the script text.
- Monitoring polls forever in the source. Here the rounds are a finite list, and running out of rounds is the `StillMonitoring` outcome.
- `Strings.Lower` lower-cases ASCII letters only. Python's `str.lower()` also maps non-ASCII letters.
- SlurmResults.CallDir: joins the bucket and the call id with `/` as text, and every copy reads and writes that literal path. `pathlib` drops `.` parts and the operating system resolves `..`, so the model differs in these cases:
  - A call id of `.` (from `..wav`) or an empty call id: Python writes into the bucket directory itself.
  - A call id of `..` (from `...wav` or an `audio_file` of `..`): Python writes into the speaker folder. It overwrites `analysis_results.json`, or `shutil.copy2` raises `SameFileError` when the audio file would be copied onto itself.
  - An `audio_file` that is not a normalised relative path (`./x.wav`, `a//b.wav`, `../x.wav`, an absolute path): Python reads a different file from the literal key the model looks up.
- SlurmResults.OrganiseCopies: "changes no file outside the two buckets" holds for the model's text paths. In the program it holds only when no call id is `.` or `..` and every `audio_file` is a normalised relative path.
- SlurmResults.OrganiseIdempotent: proved only when no planned audio file lies inside a bucket. If an earlier entry's `audio_file` is a path that a later entry writes, a second run copies different content. The same path caveats as `SlurmResults.CallDir` apply.
- `JsonValues.ToInt` parses `int()` of a string as an optional sign and ASCII digits. It does not accept Python's `_` digit separators or non-ASCII digits.
- VTT files of a folder are sorted by file name, not by full path. All of them share one folder, so the order is the same.
- `TranscribeCalls.AudioFiles` orders paths by code point. That is `sorted` of paths within one folder. It takes `file.resolve()` to be `<folder>/<name>`, so symbolic links are not followed and two links to one target are not merged into one path.
- TranscribeCalls.AudioFilesExact: states the discovered paths as `<folder>/<name>`, not as `file.resolve()`. A symbolic link keeps its link path, and links to one target stay separate entries, where Python keeps the target path once. The file system's links are not part of the model.
- TranscribeCalls.DiscoverAudioFiles: is proved equal to `AudioFiles`, which leaves out `resolve()`. The loop therefore neither follows symbolic links nor merges links to one target.
- VttRoundTrip.VttReadBack: proved for segments whose timestamps and texts hold no line break and whose cue texts hold no `-->`. Without those premises the reader can split or drop a cue.
- AnalyzeWithOllama.AnalyzeSpeakerFolder: a file that is not valid UTF-8 (`UnicodeDecodeError`, a `ValueError` that `except OSError` does not catch) and a model reply whose `response` is not a string (`AttributeError` at `.index`) end the whole folder in Python, with no results file and no report. The model cannot express this abort: `read` returns text or an `OSError`, and `ask` returns a string reply or a failed request, so each file is either analysed or skipped.
