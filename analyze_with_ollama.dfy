/** The scoring side of analyze_with_ollama.py: the transcript read back from a WebVTT
    file, the model's reply cut down to its JSON object and merged over the defaults,
    the record kept per call, the Markdown report and the results of one folder. The
    file system, the HTTP call to the model, `json.loads`, Python's formatting of
    floats, lists and dictionaries and the report's date are parameters. */
module AnalyzeWithOllama {
  import opened Optional
  import opened Strings
  import opened JsonValues
  import opened PurePaths

  // ------------------------------------------------------------ transcript

  /** A line `extract_transcription_text` drops: a timing line, a blank line or the header. */
  predicate Skipped(line: string) {
    Contains(line, "-->") || Strip(line) == [] || StartsWith(Strip(line), "WEBVTT")
  }

  predicate Kept(line: string) {
    !Skipped(line)
  }

  /** The stripped lines the extraction keeps, in order. */
  function KeptLines(lines: seq<string>): seq<string> {
    KeysWhere(lines, Kept, Strip)
  }

  /** What `extract_transcription_text` returns for the text of a file. */
  function TranscriptText(raw: string): string {
    Join(KeptLines(SplitLines(raw)), " ")
  }

  /** `extract_transcription_text` once the file is read. */
  method ExtractTranscriptionText(raw: string) returns (text: string)
    ensures text == TranscriptText(raw)
  {
    var all := SplitLines(raw);
    var lines: seq<string> := [];
    var i := 0;
    while i < |all|
      invariant 0 <= i <= |all|
      invariant lines == KeptLines(all[..i])
    {
      var line := all[i];
      KeysWhereStep(all, i, Kept, Strip);
      if Contains(line, "-->") {
        i := i + 1;
        continue;
      }
      var stripped := Strip(line);
      if stripped == [] || StartsWith(stripped, "WEBVTT") {
        i := i + 1;
        continue;
      }
      lines := lines + [stripped];
      i := i + 1;
    }
    assert all[..i] == all;
    text := Join(lines, " ");
  }

  /** A piece of the transcript is exactly a kept line of the file, stripped. */
  lemma KeptLinesMembership(lines: seq<string>, piece: string)
    ensures piece in KeptLines(lines) <==>
      exists k | 0 <= k < |lines| :: !Skipped(lines[k]) && Strip(lines[k]) == piece
  {
    KeysWhereMembership(lines, Kept, Strip, piece);
  }

  /** Every piece of the transcript is non-blank, not a header, and free of line breaks. */
  lemma KeptLinesShape(lines: seq<string>, i: nat)
    requires i < |KeptLines(lines)| && forall k | 0 <= k < |lines| :: NoLineBreak(lines[k])
    ensures var piece := KeptLines(lines)[i];
      piece != [] && !StartsWith(piece, "WEBVTT") && NoLineBreak(piece)
  {
    var piece := KeptLines(lines)[i];
    KeptLinesMembership(lines, piece);
    var k :| 0 <= k < |lines| && !Skipped(lines[k]) && Strip(lines[k]) == piece;
    StripNoLineBreak(lines[k]);
  }

  /** Joining line-free pieces with spaces gives a line-free text. */
  lemma {:induction false} JoinNoLineBreak(parts: seq<string>)
    requires forall k | 0 <= k < |parts| :: NoLineBreak(parts[k])
    ensures NoLineBreak(Join(parts, " "))
  {
    if |parts| > 1 {
      JoinNoLineBreak(parts[1..]);
      var rest := Join(parts[1..], " ");
      var j := parts[0] + " " + rest;
      forall q | 0 <= q < |j| ensures !IsLineBreak(j[q]) {
        if q < |parts[0]| {
          assert j[q] == parts[0][q];
        } else if q > |parts[0]| {
          assert j[q] == rest[q - |parts[0]| - 1];
        }
      }
    }
  }

  /** The transcript is a single line: the extraction flattens the file. */
  lemma TranscriptOneLine(raw: string)
    ensures NoLineBreak(TranscriptText(raw))
  {
    var lines := SplitLines(raw);
    forall i | 0 <= i < |KeptLines(lines)| ensures NoLineBreak(KeptLines(lines)[i]) {
      KeptLinesShape(lines, i);
    }
    JoinNoLineBreak(KeptLines(lines));
  }

  // ------------------------------------------------------------ reply

  /** A JSON object as the `dict` it loads into, members in order. */
  type Record = seq<(string, Json)>

  const ReasoningKey: string := "reasoning"

  /** The keys of the dictionary `call_ollama` returns, in order. */
  const ResultKeys: seq<string> := [
    "score_netid", "score_resolution", "score_instruction", "score_zoom",
    "score_confidentiality", "score_tech_quality", "total_score", ReasoningKey]

  /** The reasoning kept when the reply gives none: the reply itself, if any. */
  function DefaultReasoning(raw: string): string {
    if raw != [] then raw else "Analysis failed"
  }

  /** The dictionary before the reply is looked at: every score 0. */
  function Defaults(raw: string): (r: Record)
    ensures KeysOf(r) == ResultKeys
  {
    [("score_netid", Int(0)), ("score_resolution", Int(0)), ("score_instruction", Int(0)),
     ("score_zoom", Int(0)), ("score_confidentiality", Int(0)), ("score_tech_quality", Int(0)),
     ("total_score", Int(0)), (ReasoningKey, Str(DefaultReasoning(raw)))]
  }

  /** The text `json.loads` is given: from the first `{` up to and including the last `}`;
      `None` where `index` or `rindex` raises. */
  function ReplySlice(raw: string): Option<string> {
    var start := Find(raw, '{');
    var last := RFind(raw, '}');
    if start < 0 || last < 0 then None
    else if last + 1 <= start then Some("")
    else Some(raw[start..last + 1])
  }

  /** The slice is missing exactly when a brace is missing; otherwise it is the stretch
      of the reply from a `{` with none before it to a `}` with none after it. */
  lemma ReplySliceShape(raw: string)
    ensures ReplySlice(raw).None? <==> '{' !in raw || '}' !in raw
    ensures ReplySlice(raw).Some? && ReplySlice(raw).value != [] ==>
      var t := ReplySlice(raw).value;
      && t[0] == '{' && t[|t| - 1] == '}'
      && exists a | 0 <= a && a + |t| <= |raw| ::
        raw[a..a + |t|] == t && '{' !in raw[..a] && '}' !in raw[a + |t|..]
  {
    var start := Find(raw, '{');
    var last := RFind(raw, '}');
    if '{' in raw {
      var q :| 0 <= q < |raw| && raw[q] == '{';
    }
    if '}' in raw {
      var q :| 0 <= q < |raw| && raw[q] == '}';
    }
    if start >= 0 && last >= 0 && start < last + 1 {
      var t := raw[start..last + 1];
      assert raw[start..start + |t|] == t;
      assert forall q | 0 <= q < start :: raw[..start][q] == raw[q];
      assert forall q | last + 1 <= q < |raw| :: raw[last + 1..][q - last - 1] == raw[q];
    }
  }

  /** The dictionary after `result[key] = parsed[key]` for each of `keys` the reply has. */
  function Merge(result: Record, parsed: Record, keys: seq<string>): (r: Record)
    ensures KeysOf(r) == KeysOf(result)
  {
    if keys == [] then result
    else
      var r := Merge(result, parsed, keys[..|keys| - 1]);
      var key := keys[|keys| - 1];
      match Lookup(parsed, key)
      case Some(v) => Assign(r, key, v)
      case None => r
  }

  /** A reasoning that is an object is replaced by its printed form. */
  function Stringify(result: Record, render: Json -> string): Record {
    var reasoning := Lookup(result, ReasoningKey);
    if reasoning.Some? && reasoning.value.Object? then Assign(result, ReasoningKey, Str(PyStr(reasoning.value, render)))
    else result
  }

  /** The dictionary `call_ollama` returns for the reply `raw`. */
  function ReplyFields(raw: string, parse: string -> Option<Json>, render: Json -> string): Record {
    var defaults := Defaults(raw);
    match ReplySlice(raw)
    case None => defaults
    case Some(t) =>
      match parse(t)
      case Some(Object(m)) => Stringify(Merge(defaults, m, ResultKeys), render)
      case _ => defaults
  }

  /** `call_ollama` after the request: defaults, then the reply's values over them. */
  method CallOllama(raw: string, parse: string -> Option<Json>, render: Json -> string) returns (result: Record)
    ensures result == ReplyFields(raw, parse, render)
  {
    result := Defaults(raw);
    var start := Find(raw, '{');
    if start < 0 {
      return;
    }
    var last := RFind(raw, '}');
    if last < 0 {
      return;
    }
    var end := last + 1;
    var slice := if end <= start then "" else raw[start..end];
    assert ReplySlice(raw) == Some(slice);
    var parsed := parse(slice);
    if !(parsed.Some? && parsed.value.Object?) {
      return;
    }
    var members := parsed.value.members;
    ReplyFieldsMerged(raw, parse, render, slice, members);
    result := MergeKeys(result, members, KeysOf(result));
    var reasoning := Lookup(result, ReasoningKey);
    if reasoning.Some? && reasoning.value.Object? {
      result := Assign(result, ReasoningKey, Str(PyStr(reasoning.value, render)));
    }
  }

  /** A reply whose slice parses to an object is merged over the defaults. */
  lemma ReplyFieldsMerged(raw: string, parse: string -> Option<Json>, render: Json -> string,
                          slice: string, members: Record)
    requires ReplySlice(raw) == Some(slice) && parse(slice) == Some(Object(members))
    ensures ReplyFields(raw, parse, render) == Stringify(Merge(Defaults(raw), members, ResultKeys), render)
  {
  }

  /** The merge loop of `call_ollama`: in key order, each key the reply also has takes
      the reply's value. */
  method MergeKeys(result: Record, parsed: Record, keys: seq<string>) returns (r: Record)
    ensures r == Merge(result, parsed, keys)
  {
    r := result;
    var i := 0;
    while i < |keys|
      invariant 0 <= i <= |keys|
      invariant r == Merge(result, parsed, keys[..i])
    {
      var key := keys[i];
      MergeStep(result, parsed, keys, i);
      var found := Lookup(parsed, key);
      if found.Some? {
        r := Assign(r, key, found.value);
      }
      i := i + 1;
    }
    assert keys[..i] == keys;
  }

  /** A merge reads, for a key of the dictionary, the reply's value if the reply has the
      key among `keys` and the old value otherwise; other keys stay absent. */
  lemma {:induction false} MergeLookup(result: Record, parsed: Record, keys: seq<string>, k: string)
    ensures Lookup(Merge(result, parsed, keys), k) ==
      if Lookup(result, k).Some? && k in keys && Lookup(parsed, k).Some? then Lookup(parsed, k) else Lookup(result, k)
  {
    if keys != [] {
      var init, key := keys[..|keys| - 1], keys[|keys| - 1];
      assert keys == init + [key];
      assert k in keys <==> k in init || k == key;
      MergeLookup(result, parsed, init, k);
      var r := Merge(result, parsed, init);
      var found := Lookup(parsed, key);
      if found.Some? {
        LookupAssign(r, key, found.value, k);
      }
    }
  }

  /** One more key merged. */
  lemma MergeStep(result: Record, parsed: Record, keys: seq<string>, i: nat)
    requires i < |keys|
    ensures Merge(result, parsed, keys[..i + 1]) ==
      var r := Merge(result, parsed, keys[..i]);
      match Lookup(parsed, keys[i])
      case Some(v) => Assign(r, keys[i], v)
      case None => r
  {
    assert keys[..i + 1][..i] == keys[..i];
  }

  /** The dictionary always has exactly the eight keys, in their order. */
  lemma ReplyKeys(raw: string, parse: string -> Option<Json>, render: Json -> string)
    ensures KeysOf(ReplyFields(raw, parse, render)) == ResultKeys
  {
  }

  /** Without both braces, or when the slice does not load as an object, every value
      keeps its default. */
  lemma ReplyDefaults(raw: string, parse: string -> Option<Json>, render: Json -> string)
    requires ReplySlice(raw).None? || !(parse(ReplySlice(raw).value).Some? && parse(ReplySlice(raw).value).value.Object?)
    ensures ReplyFields(raw, parse, render) == Defaults(raw)
  {
    match ReplySlice(raw)
    case None =>
    case Some(t) =>
      match parse(t)
      case Some(Object(m)) => assert false;
      case _ =>
  }

  /** The defaults have a value for each of the eight keys and for no other key. */
  lemma DefaultsLookup(raw: string, k: string)
    ensures Lookup(Defaults(raw), k).Some? <==> k in ResultKeys
  {
    var d := Defaults(raw);
    assert forall i | 0 <= i < |d| :: d[i].0 == KeysOf(d)[i];
  }

  /** Every score defaults to 0; the reasoning defaults to the reply itself, or to
      "Analysis failed" when the reply is empty. */
  lemma DefaultsValues(raw: string, k: string)
    requires k in ResultKeys
    ensures Lookup(Defaults(raw), k) ==
      Some(if k == ReasoningKey then Str(if raw != [] then raw else "Analysis failed") else Int(0))
  {
    var d := Defaults(raw);
    assert forall i | 0 <= i < |d| :: d[i].0 == KeysOf(d)[i];
  }

  /** For a reply that loads as an object `m`: each of the eight keys reads `m`'s value
      if `m` has the key and the default otherwise, a reasoning object is printed to a
      string, and keys of `m` outside the eight are ignored. */
  lemma ReplyLookup(raw: string, parse: string -> Option<Json>, render: Json -> string, m: Record, k: string)
    requires ReplySlice(raw).Some? && parse(ReplySlice(raw).value) == Some(Object(m))
    ensures Lookup(ReplyFields(raw, parse, render), k) ==
      if k !in ResultKeys then None
      else
        var v := Lookup(m, k).GetOr(Lookup(Defaults(raw), k).value);
        if k == ReasoningKey && v.Object? then Some(Str(PyStr(v, render))) else Some(v)
  {
    var defaults := Defaults(raw);
    var merged := Merge(defaults, m, ResultKeys);
    assert ReplyFields(raw, parse, render) == Stringify(merged, render);
    DefaultsLookup(raw, k);
    DefaultsLookup(raw, ReasoningKey);
    MergeLookup(defaults, m, ResultKeys, k);
    MergeLookup(defaults, m, ResultKeys, ReasoningKey);
    var reasoning := Lookup(merged, ReasoningKey);
    if reasoning.Some? && reasoning.value.Object? {
      LookupAssign(merged, ReasoningKey, Str(PyStr(reasoning.value, render)), k);
    }
  }

  /** The reasoning in the dictionary is never an object. */
  lemma ReplyReasoningFlat(raw: string, parse: string -> Option<Json>, render: Json -> string)
    ensures var r := Lookup(ReplyFields(raw, parse, render), ReasoningKey);
      r.Some? && !r.value.Object?
  {
    match ReplySlice(raw)
    case None =>
    case Some(t) =>
      match parse(t)
      case Some(Object(m)) =>
        ReplyLookup(raw, parse, render, m, ReasoningKey);
      case _ =>
  }

  // ------------------------------------------------------------ one call

  /** `text[:n] + "..."` when the text is longer than `n`, the text itself otherwise. */
  function Shorten(text: string, n: nat): string {
    if |text| > n then text[..n] + "..." else text
  }

  /** A short text is kept whole; a long one keeps its first `n` characters and ends in
      the three dots. */
  lemma ShortenShape(text: string, n: nat)
    ensures var r := Shorten(text, n);
      && |r| <= n + 3
      && (|text| <= n ==> r == text)
      && (|text| > n ==> |r| == n + 3 && r[..n] == text[..n] && EndsWith(r, "..."))
  {
  }

  /** `transcription[:200] + ("..." if len(transcription) > 200 else "")`. */
  function Preview(transcript: string): string {
    Shorten(transcript, 200)
  }

  const AudioSuffixes: seq<string> := [".wav", ".mp3", ".m4a", ".flac", ".ogg"]

  /** The first of `exts` whose sibling of `name` exists. */
  function FirstSibling(name: string, exts: seq<string>, present: string -> bool): Option<string>
    requires name != []
  {
    if exts == [] then None
    else if present(WithSuffix(name, exts[0])) then Some(WithSuffix(name, exts[0]))
    else FirstSibling(name, exts[1..], present)
  }

  /** `discover_audio_name` for the VTT file `name` of a folder: the first sibling with an
      audio suffix that exists, else the stem. */
  function DiscoverAudioName(name: string, present: string -> bool): string
    requires name != []
  {
    match FirstSibling(name, AudioSuffixes, present)
    case Some(sibling) => sibling
    case None => Stem(name)
  }

  lemma {:induction false} FirstSiblingFirst(name: string, exts: seq<string>, present: string -> bool)
    requires name != []
    ensures FirstSibling(name, exts, present).None? <==> forall k | 0 <= k < |exts| :: !present(WithSuffix(name, exts[k]))
    ensures FirstSibling(name, exts, present).Some? ==> exists k | 0 <= k < |exts| ::
      && FirstSibling(name, exts, present).value == WithSuffix(name, exts[k]) && present(WithSuffix(name, exts[k]))
      && forall j | 0 <= j < k :: !present(WithSuffix(name, exts[j]))
  {
    if exts != [] && !present(WithSuffix(name, exts[0])) {
      var rest := exts[1..];
      FirstSiblingFirst(name, rest, present);
      if FirstSibling(name, rest, present).Some? {
        var k :| 0 <= k < |rest| && FirstSibling(name, rest, present).value == WithSuffix(name, rest[k])
          && present(WithSuffix(name, rest[k])) && forall j | 0 <= j < k :: !present(WithSuffix(name, rest[j]));
        assert exts[k + 1] == rest[k];
        forall j | 0 <= j < k + 1 ensures !present(WithSuffix(name, exts[j])) {
          if j > 0 {
            assert exts[j] == rest[j - 1];
          }
        }
      }
      forall k | 0 < k < |exts| ensures exts[k] == rest[k - 1] {
      }
    }
  }

  /** The audio name is the VTT file's stem followed by the first audio suffix, in the
      order .wav, .mp3, .m4a, .flac, .ogg, whose file exists, or the bare stem. */
  lemma DiscoverAudioNameFirst(name: string, present: string -> bool)
    requires name != []
    ensures var r := DiscoverAudioName(name, present);
      || (r == Stem(name) && forall k | 0 <= k < |AudioSuffixes| :: !present(Stem(name) + AudioSuffixes[k]))
      || exists k | 0 <= k < |AudioSuffixes| ::
          && r == Stem(name) + AudioSuffixes[k] && present(r) && Suffix(r) == AudioSuffixes[k]
          && forall j | 0 <= j < k :: !present(Stem(name) + AudioSuffixes[j])
  {
    FirstSiblingFirst(name, AudioSuffixes, present);
    var r := DiscoverAudioName(name, present);
    if FirstSibling(name, AudioSuffixes, present).Some? {
      var k :| 0 <= k < |AudioSuffixes| && r == WithSuffix(name, AudioSuffixes[k]) && present(WithSuffix(name, AudioSuffixes[k]))
        && forall j | 0 <= j < k :: !present(WithSuffix(name, AudioSuffixes[j]));
      assert ProperExtension(AudioSuffixes[k]);
      WithSuffixRoundTrip(name, AudioSuffixes[k]);
    }
  }

  /** What the pipeline can do, given as values: read a file (`None` for an `OSError`),
      ask the model about a transcript (`None` for a failed request), test whether a
      sibling file exists, load JSON (`None` for a `ValueError`) and print a value. */
  datatype Services = Services(
    read: string -> Option<string>,
    ask: string -> Option<string>,
    present: string -> bool,
    parse: string -> Option<Json>,
    render: Json -> string)

  /** The record `analyze_transcription_file` builds from a transcript and the reply. */
  function CallRecord(name: string, transcript: string, fields: Record, audio: string): Record {
    [("audio_file", Str(audio)), ("transcription_file", Str(name))] + fields
      + [("score", Get(fields, "total_score", Int(0))), ("transcription_preview", Str(Preview(transcript)))]
  }

  /** `analyze_transcription_file` for the VTT file `name`: `None` when the file cannot be
      read, the transcript is blank or the request fails. */
  function AnalyzeTranscriptionFile(env: Services, name: string): Option<Record>
    requires name != []
  {
    match env.read(name)
    case None => None
    case Some(raw) =>
      var transcript := TranscriptText(raw);
      if Strip(transcript) == [] then None
      else
        match env.ask(transcript)
        case None => None
        case Some(reply) =>
          Some(CallRecord(name, transcript, ReplyFields(reply, env.parse, env.render), DiscoverAudioName(name, env.present)))
  }

  /** A blank transcript is skipped. */
  lemma BlankTranscriptSkipped(env: Services, name: string)
    requires name != [] && env.read(name).Some? && AllSpace(TranscriptText(env.read(name).value))
    ensures AnalyzeTranscriptionFile(env, name).None?
  {
    StripShape(TranscriptText(env.read(name).value));
  }

  /** The keys of a record: the two file names, the eight reply keys, the score and the preview. */
  lemma CallRecordKeys(name: string, transcript: string, fields: Record, audio: string)
    requires KeysOf(fields) == ResultKeys
    ensures KeysOf(CallRecord(name, transcript, fields, audio)) ==
      ["audio_file", "transcription_file"] + ResultKeys + ["score", "transcription_preview"]
  {
    var head: Record := [("audio_file", Str(audio)), ("transcription_file", Str(name))];
    var tail: Record := [("score", Get(fields, "total_score", Int(0))), ("transcription_preview", Str(Preview(transcript)))];
    KeysOfAppend(head, fields);
    KeysOfAppend(head + fields, tail);
  }

  /** A record reads the VTT file's name, a `score` equal to `total_score`, and the preview. */
  lemma CallRecordLookup(name: string, transcript: string, fields: Record, audio: string)
    requires KeysOf(fields) == ResultKeys
    ensures var r := CallRecord(name, transcript, fields, audio);
      && Lookup(r, "transcription_file") == Some(Str(name))
      && Lookup(r, "total_score").Some? && Lookup(r, "score") == Lookup(r, "total_score")
      && Lookup(r, "transcription_preview") == Some(Str(Preview(transcript)))
  {
    var head: Record := [("audio_file", Str(audio)), ("transcription_file", Str(name))];
    var tail: Record := [("score", Get(fields, "total_score", Int(0))), ("transcription_preview", Str(Preview(transcript)))];
    assert KeysOf(fields)[6] == "total_score";
    assert Lookup(fields, "total_score").Some?;
    LookupAbsent(fields, "transcription_file");
    LookupAbsent(tail, "total_score");
    LookupAbsent(tail, "transcription_file");
    LookupAppend(head + fields, tail, "total_score");
    LookupAppend(head, fields, "total_score");
    LookupAppend(head + fields, tail, "transcription_file");
    LookupAppend(head, fields, "transcription_file");
  }

  /** A record of a call names its files, carries the eight reply fields, a `score` equal
      to `total_score` and the preview of the transcript. */
  lemma CallRecordFields(env: Services, name: string)
    requires name != [] && AnalyzeTranscriptionFile(env, name).Some?
    ensures var r := AnalyzeTranscriptionFile(env, name).value;
      && KeysOf(r) == ["audio_file", "transcription_file"] + ResultKeys + ["score", "transcription_preview"]
      && Lookup(r, "transcription_file") == Some(Str(name))
      && Lookup(r, "total_score").Some? && Lookup(r, "score") == Lookup(r, "total_score")
      && Lookup(r, "transcription_preview") == Some(Str(Preview(TranscriptText(env.read(name).value))))
  {
    var transcript := TranscriptText(env.read(name).value);
    var reply := env.ask(transcript).value;
    var fields := ReplyFields(reply, env.parse, env.render);
    var audio := DiscoverAudioName(name, env.present);
    ReplyKeys(reply, env.parse, env.render);
    CallRecordKeys(name, transcript, fields, audio);
    CallRecordLookup(name, transcript, fields, audio);
  }

  // ------------------------------------------------------------ report

  /** The reasoning cell of the summary table: line feeds turned into spaces, then cut
      to 100 characters. */
  function ReasoningCell(data: Record, render: Json -> string): string {
    Shorten(Replace(PyStr(Get(data, ReasoningKey, Str("")), render), "\n", " "), 100)
  }

  /** The cell holds no line feed and at most 103 characters. */
  lemma ReasoningCellShape(data: Record, render: Json -> string)
    ensures var c := ReasoningCell(data, render);
      |c| <= 103 && forall i | 0 <= i < |c| :: c[i] != '\n'
  {
    var s := PyStr(Get(data, ReasoningKey, Str("")), render);
    ReplaceChar(s, '\n', ' ');
    var flat := Replace(s, "\n", " ");
    ShortenShape(flat, 100);
    var c := ReasoningCell(data, render);
    forall i | 0 <= i < |c| ensures c[i] != '\n' {
      if |flat| > 100 && i < 100 {
        assert c[i] == flat[i];
      }
    }
  }

  /** One row of the summary table. */
  function SummaryRow(file: string, data: Record, render: Json -> string): string {
    "| " + file + " | " + PyStr(Get(data, "total_score", Int(0)), render) + " | " + ReasoningCell(data, render) + " |"
  }

  /** The detailed section of one call. */
  function DetailLines(file: string, data: Record, render: Json -> string): seq<string> {
    ["\n### " + file,
     "\n**Audio Source:** `" + PyStr(Get(data, "audio_file", Str("Unknown")), render) + "`",
     "**Total Score:** " + PyStr(Get(data, "total_score", Int(0)), render) + " / 100",
     "\n**Score Breakdown:**",
     "- NetID Acquisition: " + PyStr(Get(data, "score_netid", Int(0)), render) + "/10",
     "- Issue Resolution: " + PyStr(Get(data, "score_resolution", Int(0)), render) + "/15",
     "- Instructions: " + PyStr(Get(data, "score_instruction", Int(0)), render) + "/15",
     "- Zoom Usage: " + PyStr(Get(data, "score_zoom", Int(0)), render) + "/5",
     "- Confidentiality: " + PyStr(Get(data, "score_confidentiality", Int(0)), render) + "/7",
     "- Technical Quality: " + PyStr(Get(data, "score_tech_quality", Int(0)), render) + "/48",
     "\n**Reasoning:**",
     PyStr(Get(data, ReasoningKey, Str("No reasoning provided")), render),
     "\n---"]
  }

  /** The per-file results of a folder, keyed by VTT file name, in order. */
  type Results = seq<(string, Record)>

  function SummaryRows(results: Results, render: Json -> string): (r: seq<string>)
    ensures |r| == |results|
  {
    Mapped(results, RowOf(render))
  }

  function RowOf(render: Json -> string): ((string, Record)) -> string {
    (e: (string, Record)) => SummaryRow(e.0, e.1, render)
  }

  function Details(results: Results, render: Json -> string): seq<string> {
    Flattened(results, SectionOf(render))
  }

  function SectionOf(render: Json -> string): ((string, Record)) -> seq<string> {
    (e: (string, Record)) => DetailLines(e.0, e.1, render)
  }

  function Heading(date: string, count: nat): seq<string> {
    ["# Call Analysis Report",
     "\n**Date:** " + date,
     "**Total Calls Analyzed:** " + ShowInt(count),
     "\n## Summary Table",
     "\n| File | Score | Reasoning |",
     "|---|---|---|"]
  }

  /** The text `generate_markdown_report` writes. */
  function ReportText(results: Results, date: string, render: Json -> string): string {
    Join(Heading(date, |results|) + SummaryRows(results, render) + ["\n## Detailed Analysis"] + Details(results, render), "\n")
  }

  /** The summary table has one row per result, in the order of the results. */
  lemma SummaryRowsAt(results: Results, render: Json -> string, i: nat)
    requires i < |results|
    ensures SummaryRows(results, render)[i] == SummaryRow(results[i].0, results[i].1, render)
  {
    MappedAt(results, RowOf(render), i);
  }

  /** The first loop of `generate_markdown_report`: one table row per result. */
  method SummaryTable(results: Results, render: Json -> string) returns (rows: seq<string>)
    ensures rows == SummaryRows(results, render)
  {
    rows := [];
    var i := 0;
    while i < |results|
      invariant 0 <= i <= |results|
      invariant rows == SummaryRows(results[..i], render)
    {
      var score := Get(results[i].1, "total_score", Int(0));
      var reasoning := Replace(PyStr(Get(results[i].1, ReasoningKey, Str("")), render), "\n", " ");
      var short := if |reasoning| > 100 then reasoning[..100] + "..." else reasoning;
      MappedStep(results, RowOf(render), i);
      rows := rows + ["| " + results[i].0 + " | " + PyStr(score, render) + " | " + short + " |"];
      i := i + 1;
    }
    assert results[..i] == results;
  }

  /** The second loop of `generate_markdown_report`: one section per result. */
  method DetailedAnalysis(results: Results, render: Json -> string) returns (sections: seq<string>)
    ensures sections == Details(results, render)
  {
    sections := [];
    var i := 0;
    while i < |results|
      invariant 0 <= i <= |results|
      invariant sections == Details(results[..i], render)
    {
      FlattenedStep(results, SectionOf(render), i);
      sections := sections + DetailLines(results[i].0, results[i].1, render);
      i := i + 1;
    }
    assert results[..i] == results;
  }

  /** `generate_markdown_report` without the write: the heading, the table, the sections. */
  method GenerateMarkdownReport(results: Results, date: string, render: Json -> string) returns (report: string)
    ensures report == ReportText(results, date, render)
  {
    var lines := Heading(date, |results|);
    var rows := SummaryTable(results, render);
    lines := lines + rows;
    lines := lines + ["\n## Detailed Analysis"];
    var sections := DetailedAnalysis(results, render);
    lines := lines + sections;
    report := Join(lines, "\n");
  }

  // ------------------------------------------------------------ one folder

  predicate IsVtt(name: string) {
    EndsWith(name, ".vtt")
  }

  /** Every name sorting keeps from the VTT names is a VTT name. */
  lemma SortedVttNames(names: seq<string>, found: seq<string>, r: seq<string>)
    requires found == KeysWhere(names, IsVtt, Identity) && multiset(r) == multiset(found)
    ensures forall k | 0 <= k < |r| :: IsVtt(r[k])
    ensures forall n :: n in r <==> n in names && IsVtt(n)
  {
    forall k | 0 <= k < |r| ensures IsVtt(r[k]) {
      assert r[k] in multiset(found);
      KeysWhereMembership(names, IsVtt, Identity, r[k]);
    }
    forall n ensures n in r <==> n in names && IsVtt(n) {
      assert n in r <==> n in multiset(found);
      KeysWhereMembership(names, IsVtt, Identity, n);
      if n in names && IsVtt(n) {
        var k :| 0 <= k < |names| && names[k] == n;
        assert IsVtt(names[k]) && Identity(names[k]) == n;
      }
    }
  }

  /** `sorted(folder.glob("*.vtt"))`, by file name. */
  function VttFiles(names: seq<string>): (r: seq<string>)
    ensures forall k | 0 <= k < |r| :: IsVtt(r[k])
    ensures forall n :: n in r <==> n in names && IsVtt(n)
    ensures SortedBy(r, Identity)
  {
    var found := KeysWhere(names, IsVtt, Identity);
    var r := SortBy(found, Identity);
    SortedVttNames(names, found, r);
    r
  }

  /** The results of the files, keyed by file name, the failed analyses left out. */
  function FolderResults(env: Services, files: seq<string>): Results
    requires forall k | 0 <= k < |files| :: IsVtt(files[k])
  {
    if files == [] then []
    else
      var last := files[|files| - 1];
      assert IsVtt(last);
      FolderResults(env, files[..|files| - 1])
        + match AnalyzeTranscriptionFile(env, last)
          case Some(r) => [(last, r)]
          case None => []
  }

  /** `analyze_speaker_folder` with the folder given by the names of its entries: analyse
      every VTT file in name order, keep the successes; the results file and the report
      are written only when some analysis succeeded. */
  method AnalyzeSpeakerFolder(env: Services, names: seq<string>, date: string)
    returns (results: Results, report: Option<string>)
    ensures results == FolderResults(env, VttFiles(names))
    ensures report.Some? <==> results != []
    ensures report.Some? ==> report.value == ReportText(results, date, env.render)
  {
    var files := VttFiles(names);
    results := [];
    if files == [] {
      return results, None;
    }
    var i := 0;
    while i < |files|
      invariant 0 <= i <= |files|
      invariant results == FolderResults(env, files[..i])
    {
      var file := files[i];
      assert files[..i + 1][..i] == files[..i];
      var analysis := AnalyzeTranscriptionFile(env, file);
      if analysis.Some? {
        results := results + [(file, analysis.value)];
      }
      i := i + 1;
    }
    assert files[..i] == files;
    if results == [] {
      return results, None;
    }
    var text := GenerateMarkdownReport(results, date, env.render);
    report := Some(text);
  }

  /** The results hold exactly the files whose analysis succeeded, each with its record,
      in file order. */
  lemma {:induction false} FolderResultsExact(env: Services, files: seq<string>, i: nat)
    requires forall k | 0 <= k < |files| :: IsVtt(files[k])
    requires i < |FolderResults(env, files)|
    ensures exists k | 0 <= k < |files| ::
      files[k] == FolderResults(env, files)[i].0 && AnalyzeTranscriptionFile(env, files[k]) == Some(FolderResults(env, files)[i].1)
  {
    var init := files[..|files| - 1];
    var r := FolderResults(env, init);
    if i < |r| {
      FolderResultsExact(env, init, i);
      var k :| 0 <= k < |init| && init[k] == r[i].0 && AnalyzeTranscriptionFile(env, init[k]) == Some(r[i].1);
      assert files[k] == init[k];
    }
  }

  /** The keys of the results are the successful files, in order. */
  lemma {:induction false} FolderResultsKeys(env: Services, files: seq<string>)
    requires forall k | 0 <= k < |files| :: IsVtt(files[k])
    ensures KeysOf(FolderResults(env, files)) == KeysWhere(files, f => IsVtt(f) && AnalyzeTranscriptionFile(env, f).Some?, Identity)
  {
    if files != [] {
      FolderResultsKeys(env, files[..|files| - 1]);
    }
  }

  /** A folder whose entries have distinct names gives results with distinct keys, in
      increasing order: one entry per VTT file at most. */
  lemma FolderResultsIncreasing(env: Services, names: seq<string>)
    requires DistinctKeys(names, Identity)
    ensures StrictlyIncreasing(KeysOf(FolderResults(env, VttFiles(names))))
  {
    var found := KeysWhere(names, IsVtt, Identity);
    KeysWhereDistinct(names, IsVtt, Identity);
    SortByStrict(found, Identity);
    FolderResultsKeys(env, VttFiles(names));
    KeysWhereIncreasing(VttFiles(names), f => IsVtt(f) && AnalyzeTranscriptionFile(env, f).Some?, Identity);
  }
}
